# drawganizer core, modelled in Dafny

drawganizer is a small Next.js application for cataloguing what sits in
storage drawers. Each drawer is a `drawerWidth` by `drawerDepth` floor with
`drawerHeight` levels. Each item occupies a box in it: a 1-based start row
and column, a width and a depth on the floor, and a range of levels given by
`startHeight` and `itemHeight`.

This project models the logic of the application in Dafny and proves
properties of it:

- The drawer grid (`app/grid/DrawerGrid.tsx`):
  - the items visible at one level;
  - the normalised drag rectangle;
  - the three-dimensional overlap check `checkHeightIntersection` and the
    message `validatePosition` builds from it;
  - the projection of one level onto the `grid` and `cellSpans` arrays
    (first writer wins, `"start"`/`"span"` tags);
  - the conversions between 0-based selections and 1-based stored
    coordinates;
  - the component's state and event handlers.
- The manual item form (`app/ItemForm.tsx`) and the inline add line
  (`app/AddLineItem.tsx`), with their bounds checks and state resets.
- The server actions (`app/actions.ts`):
  - required fields, defaulting to 1, and empty text stored as `null`;
  - the record store, abstracted as two maps keyed by id.
- Grouping and search:
  - the `groupedItems` reduce of `app/ItemList.tsx`;
  - the drawer entries and their filter in `app/grid/GridView.tsx`;
  - the sort by start level, `maxHeight` and the highlight test of
    `app/grid/ExplodedView.tsx`.
- The string helpers:
  - `hexToRgba` and the colour picker's handlers (`app/components/ColorPicker.tsx`);
  - `getBorderColor`, with its regular expression modelled token by token;
  - the icon display names, the capped icon search and the selected-icon
    lookup (`app/components/IconPicker.tsx`).

Modules:

| module | file | role |
|---|---|---|
| `Prelude` | prelude.dfy | `Option` and the subsequence relation |
| `JsText` | js_text.dfy | `trim`, ASCII `toLowerCase`, `includes`, `join` |
| `JsNumber` | js_number.dfy | `Number(...)` of form text, truthiness, `n \|\| 1`, `toString()` of integers |
| `Records` | records.dfy | the stored `Drawer` and `Item` rows, positions and extents |
| `Actions` | actions.dfy | `app/actions.ts` |
| `DrawerGrid` | drawer_grid.dfy | the pure helpers of `app/grid/DrawerGrid.tsx` |
| `GridProjection` | grid_projection.dfy | the `grid`/`cellSpans` loops of `app/grid/DrawerGrid.tsx` |
| `DrawerGridState` | drawer_grid_state.dfy | the component state and handlers of `app/grid/DrawerGrid.tsx` |
| `ItemForm` | item_form.dfy | `app/ItemForm.tsx` |
| `AddLineItem` | add_line_item.dfy | `app/AddLineItem.tsx` |
| `ExplodedView` | exploded_view.dfy | `app/grid/ExplodedView.tsx` |
| `ItemList` | item_list.dfy | `app/ItemList.tsx` |
| `GridView` | grid_view.dfy | `app/grid/GridView.tsx` |
| `ColorPicker` | color_picker.dfy | `app/components/ColorPicker.tsx` |
| `IconPicker` | icon_picker.dfy | `app/components/IconPicker.tsx` |

Modelling choices:

- Each component that keeps state becomes a `class`: the grid, the two forms
  and the colour picker. Its fields are the component's `useState`
  variables. Each handler is a method that states the whole new state.
- React applies state updates after the handler returns. Every handler here
  reads only the values it started with, so the model applies them in place.
- JavaScript numbers are integers, or NaN (`JsNumber.Num`).
- `FormData` is a map from field names to text.
- A server action ends either normally or with the message of the `Error` it
  throws (`Actions.Outcome`).

Places where the code behaves differently from what its surroundings
suggest. The model keeps each one, and a lemma states it:

- `addItem` treats a start level of 0 as missing and stores level 1. So a
  selection validated at level 0 is stored one level higher than the box
  that was checked (`DrawerGridState.CreatedItemIsValidatedBox`).
- `app/ItemForm.tsx` checks the position and size it collects but calls
  `addItem(formData)` without them. `addItem` reads position and size only
  from its arguments, so every manually added item is stored at (1, 1),
  1 by 1 by 1 (`ItemForm.ManualFormStoresDefaults`).
- `app/AddLineItem.tsx` checks the row against `drawerHeight - size.height + 1`,
  not against the depth (`AddLineItem.RowNotCheckedAgainstDepth`).
- `updateItem` reads a missing start or item height as 0 and accepts it
  (`Actions.UpdateItemAcceptsMissingHeights`).
- `excludeItemId` is checked for truthiness, so an id of 0 excludes nothing
  (`DrawerGrid.ZeroIdExcludesNothing`).
- Because of the level-0 rule above, a create that passes validation can
  store an item that overlaps another one. Creates at any other level keep
  the items apart (`DrawerGridState.LevelZeroCreateOverlaps`,
  `DrawerGridState.CreateKeepsItemsApart`).
- `handleUpdateItem` validates the current selection, but `updateItem` writes
  only the name and the levels. If the selection was dragged elsewhere while
  editing, an update that validates can make the edited item overlap another
  (`DrawerGridState.MovedSelectionUpdateOverlaps`). With the selection left on
  the clicked item, updates keep the items apart
  (`DrawerGridState.UpdateKeepsItemsApart`).
- `handleUpdateItem` sends `editingItem.name.trim()`, the text of the in-cell
  input (app/grid/DrawerGrid.tsx:293, 303). Clicking an item also copies its
  name into `newItemName`, which the side panel's input shows and edits under
  the "Update Item" heading (app/grid/DrawerGrid.tsx:605). Edits made there
  are not sent (`DrawerGridState.GridState.UpdateEditing`,
  `DrawerGridState.GridState.EditName`).

## Model

| member | source | states |
|---|---|---|
| JsText.Trim | app/grid/DrawerGrid.tsx:225 | the trimmed text is empty, or starts and ends with a character that is not white space |
| JsText.TrimDropsOnlyWhiteSpace | app/grid/DrawerGrid.tsx:240 | the trimmed text is a slice of the text with only white space cut off before and after it |
| JsText.TrimEmptyIff | app/AddLineItem.tsx:46 | `name.trim()` is empty exactly when the name is all white space |
| JsText.TrimIdempotent | app/grid/DrawerGrid.tsx:240 | trimming an already trimmed name changes nothing |
| JsText.Includes | app/grid/GridView.tsx:26-28 | `includes` holds exactly when the term occurs at some index of the text |
| JsText.ToLower | app/grid/DrawerGrid.tsx:85 | the lower-cased text has the same length and lower-cases each character in place |
| JsText.ToLowerIdempotent | app/grid/ExplodedView.tsx:180-182 | lower-casing twice is lower-casing once |
| JsText.EmptySearchMatches | app/ItemList.tsx:23-25 | every text contains the empty search term |
| JsText.JoinIncludesPart | app/grid/DrawerGrid.tsx:196-198 | a `join` of parts contains each of the parts |
| JsNumber.OrOne | app/actions.ts:30 | `n \|\| 1` is never 0 and is `n` itself when `n` is truthy |
| JsNumber.ToNumber | app/actions.ts:29 | `Number(...)` is NaN only for present text whose trimmed form holds a character other than a digit |
| JsNumber.NatToString | app/components/ColorPicker.tsx:53 | the decimal text of a channel value is a non-empty digit run without a leading zero that reads back as the value |
| JsNumber.ToNumberOfToString | app/grid/DrawerGrid.tsx:241-242 | `Number(n.toString())` is `n` for every integer `n` |
| Actions.Get | app/actions.ts:28-32 | `formData.get` returns the field's text when the field is present, and `null` otherwise |
| Actions.AddItemData | app/actions.ts:28-52 | a rejection always says "Name and drawer are required"; an accepted record carries the form's non-empty name, the non-zero drawer id the form's `drawerId` reads as, and a non-zero start level |
| Actions.AddItemRejects | app/actions.ts:28-36 | `addItem` throws "Name and drawer are required" exactly when the name is missing or empty, or the drawer id is 0 or NaN |
| Actions.AddItemDefaults | app/actions.ts:28-52 | an accepted record keeps the name and the drawer id; the start level is the submitted one when truthy, else 1; each absent coordinate or extent is 1 and each given one is kept |
| Actions.AddItemIgnoresOtherFields | app/actions.ts:28-47 | forms that agree on name, drawerId, startHeight, icon and color give the same record, so geometry fields in the form are ignored |
| Actions.StoredTextKeepsNonEmpty | app/actions.ts:48-51 | an absent or empty icon or colour is stored as `null`, any other text verbatim |
| Actions.UpdateItemChanges | app/actions.ts:82-89 | a rejection carries one of "Name is required", "Invalid start height" and "Invalid item height"; accepted changes carry the form's non-empty name |
| Actions.UpdateItemRejects | app/actions.ts:82-89 | `updateItem` rejects an empty name, then a NaN start height, then a NaN item height, and accepts everything else with the numbers as read |
| Actions.UpdateItemAcceptsMissingHeights | app/actions.ts:85-89 | a form with only a name is accepted, with both heights read as 0 |
| Actions.ApplyChangesKeepsPlacement | app/actions.ts:94-109 | an update writes name, start height, item height, icon and colour, and keeps id, drawer, position, width and depth |
| Actions.AddDrawerData | app/actions.ts:120-127 | a rejection always says "Name, width, depth and height are required"; an accepted drawer carries the form's non-empty name and non-zero dimensions |
| Actions.AddDrawerRejects | app/actions.ts:120-127 | `addDrawer` throws exactly when the name is missing or empty or a dimension is 0 or NaN; accepted dimensions are the numbers read |
| Actions.AddDrawerAccepts | app/actions.ts:120-137 | a form whose name and dimensions pass becomes a drawer record with exactly those values |
| Actions.AddDrawerAcceptsNonZero | app/actions.ts:119-137 | any non-empty name with non-zero dimensions, negative ones included, is accepted unchanged |
| Actions.Store.constructor | app/actions.ts:6 | the store starts empty and well-formed |
| Actions.Store.AddItem | app/actions.ts:19-64 | a rejected form throws and stores nothing; an unknown drawer throws "Failed to add item"; otherwise the record is stored under the next id, and nothing else changes |
| Actions.Store.CreateItem | app/actions.ts:55-63 | the create call stores the record under a fresh id when its drawer exists, and throws otherwise |
| Actions.Store.UpdateItem | app/actions.ts:80-117 | a rejected form throws its own message, a missing id throws, and otherwise only the changed fields of that one item are written |
| Actions.Store.DeleteItem | app/actions.ts:66-78 | a stored item is removed and nothing else changes; a missing id throws "Failed to delete item" |
| Actions.Store.AddDrawer | app/actions.ts:119-144 | a rejected form throws and stores nothing; otherwise the drawer is stored under the next id and the items are untouched |
| Actions.Store.CreateDrawer | app/actions.ts:129-137 | the drawer record is stored under a fresh id |
| DrawerGrid.GetNormalizedSelection | app/grid/DrawerGrid.tsx:88-95 | the rectangle is ordered and its row and column bounds are exactly the two corners' rows and columns |
| DrawerGrid.NormalizedSelectionIgnoresDirection | app/grid/DrawerGrid.tsx:88-95 | the rectangle is the same whichever corner the drag began from, and for either diagonal |
| DrawerGrid.VisibleItems | app/grid/DrawerGrid.tsx:47-55 | the visible items are, in list order, exactly those with `startHeight <= level <= startHeight + itemHeight - 1` |
| DrawerGrid.VisibleItemsCounts | app/grid/DrawerGrid.tsx:47-55 | each visible item is kept as many times as it occurs in the list, and no other item is kept |
| DrawerGrid.IsHighlighted | app/grid/DrawerGrid.tsx:83-86 | a cell is highlighted exactly when the term is non-empty, the cell holds an item, and the term occurs in its name, ignoring case |
| DrawerGrid.BoxesIntersectIffShareCell | app/grid/DrawerGrid.tsx:144-172 | the interval tests hold for two non-empty boxes exactly when some unit cell lies in both |
| DrawerGrid.Conflicting | app/grid/DrawerGrid.tsx:137-174 | one-pass reference: in list order, the items not excluded whose box intersects the candidate |
| DrawerGrid.ConflictingCounts | app/grid/DrawerGrid.tsx:137-174 | the reference keeps each conflicting item as many times as it occurs in the list, and no other item |
| DrawerGrid.PotentialIntersectsKeeps | app/grid/DrawerGrid.tsx:138-157 | the planar filter keeps each item that is not excluded and overlaps the rectangle on the floor, as many times as it occurs, and no other item |
| DrawerGrid.HeightIntersectsKeeps | app/grid/DrawerGrid.tsx:159-172 | the height filter keeps each item whose level range overlaps the candidate's, as many times as it occurs, and no other item |
| DrawerGrid.TwoFiltersAreOne | app/grid/DrawerGrid.tsx:137-174 | the planar filter followed by the height filter equals the one-pass reference, in the same order |
| DrawerGrid.CheckHeightIntersection | app/grid/DrawerGrid.tsx:128-175 | the result is a subsequence of the items and holds exactly those, not excluded, whose row, column and height ranges all overlap the candidate's, each as many times as it occurs in the list |
| DrawerGrid.StackedItemsDoNotConflict | app/grid/DrawerGrid.tsx:158-172 | an item whose height range is disjoint from the candidate's is never returned |
| DrawerGrid.ZeroIdExcludesNothing | app/grid/DrawerGrid.tsx:140-142 | excluding id 0 gives the same result as excluding nothing |
| DrawerGrid.ConflictingIgnoresZero | app/grid/DrawerGrid.tsx:140-142 | the same for the one-pass reference |
| DrawerGrid.QuotedNames | app/grid/DrawerGrid.tsx:196-197 | one quoted name per conflicting item, in order |
| DrawerGrid.ValidatePosition | app/grid/DrawerGrid.tsx:178-208 | no selection is valid; every message is the height message or starts with the intersection prefix; a valid selection fits under the drawer's height and its box meets no item other than the edited one |
| DrawerGrid.ValidatePositionCases | app/grid/DrawerGrid.tsx:178-208 | no selection is valid; any conflict gives the intersection message naming every conflicting item; otherwise "Item would exceed drawer height" exactly when the top is above the drawer, and valid otherwise |
| DrawerGrid.MessageNamesConflict | app/grid/DrawerGrid.tsx:195-199 | the intersection message contains the quoted name of each conflicting item |
| DrawerGrid.StoredItemRevalidates | app/grid/DrawerGrid.tsx:264-274 | a clicked item that fits the drawer and overlaps no other item validates at its own levels |
| DrawerGrid.ClickSelectionRoundTrip | app/grid/DrawerGrid.tsx:264-271 | converting a clicked item's selection back as item creation does gives its stored row, column, width and depth |
| DrawerGrid.CreatedRectRoundTrip | app/grid/DrawerGrid.tsx:233-249 | clicking an item stored from a selection rectangle gives back that rectangle |
| GridProjection.FirstCover | app/grid/DrawerGrid.tsx:68-81 | the index of the first item in list order that covers the cell, or the list length when none does |
| GridProjection.CellOwnerCovers | app/grid/DrawerGrid.tsx:68-81 | a cell's owner is a listed item covering it, and a cell has no owner exactly when no item covers it |
| GridProjection.CellOwnerSnoc | app/grid/DrawerGrid.tsx:74-75 | placing one more item fills only the cells it covers that are still empty |
| GridProjection.CellTagSnoc | app/grid/DrawerGrid.tsx:74-77 | a newly filled cell is tagged "start" at the item's origin and "span" elsewhere; other tags stay |
| GridProjection.PlaceCell | app/grid/DrawerGrid.tsx:74-78 | one inner-loop step writes the cell at that offset if it is in the grid and still empty |
| GridProjection.PlaceItem | app/grid/DrawerGrid.tsx:69-80 | after the nested loops of one item, both arrays hold the owners and tags of the items placed so far |
| GridProjection.ProjectSlice | app/grid/DrawerGrid.tsx:57-81 | the arrays are `drawerDepth` by `drawerWidth`; each cell holds the first visible item covering it, and null when none does, with its tag |
| GridProjection.OwnerIsTheCoveringItem | app/grid/DrawerGrid.tsx:68-81 | when no two items overlap, each cell belongs to the one visible item covering it |
| GridProjection.OriginRenderedOnce | app/grid/DrawerGrid.tsx:442-444 | when no two items overlap, a visible item's cell is tagged "start" exactly at its origin, and only that cell of it is rendered |
| DrawerGridState.CreateFormRecord | app/grid/DrawerGrid.tsx:239-250 | the record `addItem` builds from the creation form: the trimmed name, the drawer, the level (0 read as 1), the icon and the colour |
| DrawerGridState.CreatedItemIsValidatedBox | app/grid/DrawerGrid.tsx:224-250 | creation with a non-blank name is accepted, and the stored box equals the validated box exactly when the level is not 0 |
| DrawerGridState.CreatedBox | app/grid/DrawerGrid.tsx:233-249 | a record placed and sized from a rectangle occupies that rectangle unless its level was moved from 0 to 1 |
| DrawerGridState.UpdateFormAccepted | app/grid/DrawerGrid.tsx:301-314 | the update form of a non-blank name is accepted with the trimmed name, the current levels, the icon and the colour |
| DrawerGridState.CreateKeepsItemsApart | app/grid/DrawerGrid.tsx:224-250 | a create at a non-zero level that passes validation is accepted, and appending its record to items without overlaps leaves them without overlaps |
| DrawerGridState.LevelZeroCreateOverlaps | app/grid/DrawerGrid.tsx:224-250 | a level-0 selection, one level tall, over the footprint of an item filling level 1 validates, yet the stored record overlaps that item |
| DrawerGridState.LevelZeroSelectionValidates | app/grid/DrawerGrid.tsx:178-208 | such a selection validates against that item |
| DrawerGridState.LevelZeroCreateStoresOnLevelOne | app/grid/DrawerGrid.tsx:238-250 | the record such a create stores lies in that item's box |
| DrawerGridState.UpdateKeepsItemsApart | app/grid/DrawerGrid.tsx:292-314 | an update that passes validation while the selection is the clicked item's footprint is accepted, and writing its levels into that item keeps the items without overlaps |
| DrawerGridState.MovedSelectionUpdateOverlaps | app/grid/DrawerGrid.tsx:292-314 | with the selection moved off the edited item, growing that item into the item stacked on it validates and is accepted, and the two items then overlap |
| DrawerGridState.StackedUpdateOverlaps | app/grid/DrawerGrid.tsx:301-314 | growing the lower of two stacked items by one level is accepted and makes them overlap |
| DrawerGridState.MovedSelectionValidates | app/grid/DrawerGrid.tsx:178-208 | with the edited item excluded, a selection clear of the other item whose top fits validates |
| DrawerGridState.GridState.constructor | app/grid/DrawerGrid.tsx:35-44 | the initial state: not dragging, no selection, empty name, height 1, level 1, no edit, no error, no icon or colour |
| DrawerGridState.GridState.MouseDown | app/grid/DrawerGrid.tsx:97-104 | dragging starts from a one-cell selection, and the name is cleared |
| DrawerGridState.GridState.MouseMove | app/grid/DrawerGrid.tsx:106-117 | while dragging, only the moving corner follows the mouse; otherwise nothing changes |
| DrawerGridState.GridState.MouseUp | app/grid/DrawerGrid.tsx:119-125 | dragging ends and the selection stays |
| DrawerGridState.GridState.HeightChange | app/grid/DrawerGrid.tsx:211-215 | the height is taken and the error is the validation message for it, or empty |
| DrawerGridState.GridState.StartHeightChange | app/grid/DrawerGrid.tsx:218-222 | the level is taken and the error is the validation message for it, or empty |
| DrawerGridState.GridState.EditName | app/grid/DrawerGrid.tsx:605 | the side panel input sets the new item's name |
| DrawerGridState.GridState.EditEditingName | app/grid/DrawerGrid.tsx:500-507 | the in-cell input renames the edited item, or sets the new name when nothing is being edited |
| DrawerGridState.GridState.CreateItem | app/grid/DrawerGrid.tsx:224-262 | without a selection and a non-blank name nothing happens; an invalid position sets its message; otherwise the outcome of `addItem` is reported or the item is stored and the form reset |
| DrawerGridState.GridState.CreateSelected | app/grid/DrawerGrid.tsx:227-261 | with a selection and a non-blank name: an invalid position sets its message and stores nothing, otherwise the create is sent |
| DrawerGridState.GridState.ReportError | app/grid/DrawerGrid.tsx:228-230 | the message becomes the error and nothing else changes |
| DrawerGridState.GridState.SendCreate | app/grid/DrawerGrid.tsx:238-261 | a thrown message becomes the error; a stored item resets the selection, name, height, icon, colour and error |
| DrawerGridState.GridState.ResetAfterCreate | app/grid/DrawerGrid.tsx:252-257 | the six resets after a successful create, and nothing else |
| DrawerGridState.GridState.ItemClick | app/grid/DrawerGrid.tsx:264-290 | the clicked item's footprint, name, levels, icon and colour are loaded and it becomes the edited item; a non-overlapping item that fits validates |
| DrawerGridState.GridState.UpdateItem | app/grid/DrawerGrid.tsx:292-324 | without an edited item under a non-blank name nothing happens; an invalid position sets its message; otherwise the update is written or its failure reported |
| DrawerGridState.GridState.UpdateEditing | app/grid/DrawerGrid.tsx:295-323 | while editing under a non-blank name: an invalid position sets its message and writes nothing, otherwise the update of the edited item's trimmed name and the current levels is sent |
| DrawerGridState.GridState.SendUpdate | app/grid/DrawerGrid.tsx:301-323 | a missing item reports the store's error; otherwise the changes are written and editing ends |
| DrawerGridState.GridState.Submit | app/grid/DrawerGrid.tsx:589-596 | the form submit updates while editing and creates otherwise |
| DrawerGridState.GridState.KeyDown | app/grid/DrawerGrid.tsx:326-338 | Enter submits, Escape clears the selection, the name and the edit, and any other key changes nothing |
| DrawerGridState.GridState.DeleteClick | app/grid/DrawerGrid.tsx:545-556 | the item is deleted; if it was being edited the edit, selection, icon, colour and error are cleared; a failed delete changes nothing |
| ItemForm.FindDrawer | app/ItemForm.tsx:23 | the first drawer with the id, or none exactly when no drawer has it |
| ItemForm.PositionFits | app/ItemForm.tsx:35-46 | a position is accepted exactly when the whole footprint lies on the drawer's floor |
| ItemForm.ManualFormFields | app/ItemForm.tsx:48-50 | the form carries the name and the drawer id as text |
| ItemForm.ManualFormOmits | app/ItemForm.tsx:48-55 | the form has no start height, icon or colour |
| ItemForm.ManualFormStoresDefaults | app/ItemForm.tsx:48-58 | whatever position and size were checked, `addItem` builds a record at (1, 1), 1 by 1 by 1, level 1, without icon or colour |
| ItemForm.ItemFormState.constructor | app/ItemForm.tsx:17-21 | the form starts cleared |
| ItemForm.ItemFormState.AddItem | app/ItemForm.tsx:25-70 | "Please fill in all fields", "Please select a drawer" and "Invalid position for item size" in that order, each storing nothing; otherwise the outcome of `addItem` |
| ItemForm.ItemFormState.SendAdd | app/ItemForm.tsx:57-66 | a thrown message becomes the error; a stored item clears the form |
| ItemForm.ItemFormState.Clear | app/ItemForm.tsx:59-63 | the name, drawer, position, size and error return to their initial values |
| AddLineItem.LineFits | app/AddLineItem.tsx:33-43 | a position is accepted exactly when the column span fits the width and the row span fits the height |
| AddLineItem.RowNotCheckedAgainstDepth | app/AddLineItem.tsx:34-44 | a row past the drawer's depth can be accepted |
| AddLineItem.AddLineState.constructor | app/AddLineItem.tsx:24-29 | the line starts closed and cleared |
| AddLineItem.AddLineState.Open | app/AddLineItem.tsx:62 | a click opens the inputs |
| AddLineItem.AddLineState.HandOver | app/AddLineItem.tsx:45-53 | the callback gets the drawer id and the untrimmed name, position, size, icon and colour, and the line closes and clears |
| AddLineItem.AddLineState.Submit | app/AddLineItem.tsx:31-55 | a key other than Enter, a position off the bounds and a blank name each change nothing; otherwise the callback gets the drawer id and the untrimmed values, and the line closes and clears |
| ExplodedView.InsertByStart | app/grid/ExplodedView.tsx:26-28 | inserting into a sorted list keeps it sorted by start level and adds exactly that item |
| ExplodedView.SortedItems | app/grid/ExplodedView.tsx:26-28 | the sorted copy is ordered by start level and is a permutation of the items |
| ExplodedView.SortIsStable | app/grid/ExplodedView.tsx:27 | items with the same start level keep their input order |
| ExplodedView.MaxTop | app/grid/ExplodedView.tsx:84 | the maximum of `startHeight + itemHeight` bounds every item and is reached by one |
| ExplodedView.MaxHeight | app/grid/ExplodedView.tsx:82-85 | 1 for no items, otherwise the tallest top |
| ExplodedView.IsHighlighted | app/grid/ExplodedView.tsx:180-182 | an item is highlighted exactly when the term is non-empty and occurs in its name, ignoring case |
| ExplodedView.ItemColor | app/grid/ExplodedView.tsx:184 | the fill is never empty, and is either the item's own colour or the default blue |
| ExplodedView.HighlightIgnoresTermCase | app/grid/ExplodedView.tsx:180-182 | highlighting does not depend on the case of the term |
| ExplodedView.Match | app/grid/ExplodedView.tsx:191-193 | a match has one capture per capture group, each a run of digits |
| ExplodedView.BorderPatternCaptures | app/grid/ExplodedView.tsx:192 | the border pattern has three capture groups |
| ExplodedView.MatchHere | app/grid/ExplodedView.tsx:191-193 | an anchored match captures three digit runs |
| ExplodedView.FirstMatch | app/grid/ExplodedView.tsx:191-195 | `color.match` captures three digit runs |
| ExplodedView.FirstMatchIsLeftmost | app/grid/ExplodedView.tsx:191-194 | there is no match exactly when the pattern matches at no position; otherwise the match is the one at the leftmost position |
| ExplodedView.MatchRgbaLike | app/grid/ExplodedView.tsx:191-195 | any `rgba(r,␣*g,␣*b,␣*a)` with digit channels and a digits-and-dots alpha matches with channels r, g, b |
| ExplodedView.BorderOfMatchHere | app/grid/ExplodedView.tsx:194-196 | a text matching at its start gets the border `rgba(r, g, b, 0.4)` of its channels |
| ExplodedView.BorderOfRgba | app/grid/ExplodedView.tsx:190-197 | a text starting with an `rgba(...)` colour gets the border of its channels at 0.4, whatever follows |
| ExplodedView.BorderOfRgbaText | app/grid/ExplodedView.tsx:190-197 | an `rgba(r, g, b, a)` colour gets the border `rgba(r, g, b, 0.4)` |
| ExplodedView.BorderColor | app/grid/ExplodedView.tsx:190-198 | every border is `rgba(r, g, b, 0.4)` for three digit runs, and a colour the pattern does not match gets the default border |
| ExplodedView.UncolouredItemBorder | app/grid/ExplodedView.tsx:184-198 | an item without a colour gets the default border `rgba(59, 130, 246, 0.4)` |
| ExplodedView.HexColouredBorder | app/grid/ExplodedView.tsx:190-196 | a colour set from a hex text keeps its channels in the border |
| ExplodedView.PresetIsRgbaText | app/components/ColorPicker.tsx:10-23 | each preset colour is `rgba(r, g, b, 0.2)` for its three listed channels |
| ExplodedView.PresetBorder | app/grid/ExplodedView.tsx:190-196 | each preset colour gets a border of its own channels at 0.4 |
| ItemList.InGroup | app/ItemList.tsx:17-44 | group `d` holds, in input order, exactly the items with drawer `d` that pass the search |
| ItemList.InGroupCounts | app/ItemList.tsx:17-44 | group `d` keeps each item that belongs to it as many times as it occurs, and no other item |
| ItemList.InGroupSnoc | app/ItemList.tsx:27-40 | a further item is appended to its own group and to no other |
| ItemList.Reduced | app/ItemList.tsx:18-44 | one reduce step adds a group only for the item's own drawer, appends the item to that group alone, keeps an existing group's drawer record, and takes a new group's record from the item |
| ItemList.GroupsOf | app/ItemList.tsx:17-57 | every group is keyed by its drawer's id, is non-empty, and holds only items of that drawer that pass the search |
| ItemList.GroupedStep | app/ItemList.tsx:18-44 | one reduce step keeps the dictionary equal to the groups of the items seen so far |
| ItemList.GroupsOfGrouped | app/ItemList.tsx:17-57 | there is a group exactly for each drawer with an included item; it copies the first such item's drawer and lists the items in input order |
| ItemList.GroupItems | app/ItemList.tsx:17-57 | the loop builds exactly the reduce's dictionary, and so those groups |
| ItemList.EmptySearchGroupsAll | app/ItemList.tsx:20-25 | with an empty search every item with a drawer lands in its drawer's group |
| GridView.ItemsOf | app/grid/GridView.tsx:20 | a drawer's items are, in input order, exactly the items with its id |
| GridView.DrawerItems | app/grid/GridView.tsx:18-21 | one entry per drawer, in order, each with exactly its own items |
| GridView.AnyNameMatches | app/grid/GridView.tsx:26-27 | true exactly when some item's name contains the term, ignoring case |
| GridView.FilteredDrawerItems | app/grid/GridView.tsx:24-30 | the kept entries are, in order, exactly those where an item name or the drawer name matches |
| GridView.KeptEntryHasAllItems | app/grid/GridView.tsx:24-30 | a kept entry still lists every item of its drawer |
| GridView.EmptySearchKeepsAll | app/grid/GridView.tsx:24-30 | the empty search keeps every entry |
| ColorPicker.PairValue | app/components/ColorPicker.tsx:49-51 | a two-digit pair's value is below 256, with the digits as its high and low nibbles |
| ColorPicker.ParseHex | app/components/ColorPicker.tsx:46-51 | a text matches exactly when, after an optional `#`, it is six hex digits; the channels are then below 256 |
| ColorPicker.HexToRgba | app/components/ColorPicker.tsx:45-54 | a colour is produced exactly for six hex digits after an optional `#`; it is `rgba(r, g, b, opacity)` for the channels whose lower-case hex those digits are |
| ColorPicker.HexRoundTrip | app/components/ColorPicker.tsx:45-53 | every channel triple written in hex, with or without `#`, parses back to itself |
| ColorPicker.ParseHexCanonical | app/components/ColorPicker.tsx:46-51 | an accepted text is the lower-case hex of its channels, up to letter case and the `#` |
| ColorPicker.HashOptional | app/components/ColorPicker.tsx:46 | adding a leading `#` changes nothing |
| ColorPicker.HashHexIffParses | app/components/ColorPicker.tsx:136-146 | the Set guard admits exactly the parsed texts that start with `#`, so the inner null check never fails |
| ColorPicker.PickerState.constructor | app/components/ColorPicker.tsx:26-27 | closed, with the current value, or empty text, as the custom colour |
| ColorPicker.PickerState.Toggle | app/components/ColorPicker.tsx:59-63 | the button flips the dropdown |
| ColorPicker.PickerState.EditCustom | app/components/ColorPicker.tsx:130 | typing sets the custom colour |
| ColorPicker.PickerState.PresetClick | app/components/ColorPicker.tsx:97-99 | the preset is passed unchanged and the dropdown closes |
| ColorPicker.PickerState.SetClick | app/components/ColorPicker.tsx:136-146 | a `#` and six hex digits are passed as `rgba(..., 0.2)` and the dropdown closes; any other text changes nothing |
| ColorPicker.PickerState.ClearClick | app/components/ColorPicker.tsx:155-159 | no colour is passed and the dropdown closes |
| IconPicker.SpaceBeforeUpper | app/components/IconPicker.tsx:15 | inserting spaces never shortens the text |
| IconPicker.SpaceBeforeUpperSpaces | app/components/IconPicker.tsx:15 | the inserted spaces are the only white space, and removing them gives the text back |
| IconPicker.TrimUnspaced | app/components/IconPicker.tsx:16 | trimming a text whose white space is plain spaces removes only spaces |
| IconPicker.DisplayNameSpellsKey | app/components/IconPicker.tsx:12-16 | the display name with its spaces removed is the key without its leading `mdi` |
| IconPicker.IconOf | app/components/IconPicker.tsx:12-19 | the id is the key unchanged and the path is kept |
| IconPicker.IconList | app/components/IconPicker.tsx:12-19 | one icon per entry, in order, with the entry's key as id and its path |
| IconPicker.Matching | app/components/IconPicker.tsx:28-31 | in list order, exactly the icons whose name contains the search, ignoring case |
| IconPicker.FirstResultsOf | app/components/IconPicker.tsx:32-33 | the first twenty of a subsequence are a subsequence taken from it |
| IconPicker.FilteredIcons | app/components/IconPicker.tsx:27-33 | at most twenty results, in list order, all matching; fewer than twenty means every match is shown; the empty search shows the first twenty icons |
| IconPicker.MatchingEmpty | app/components/IconPicker.tsx:33 | the empty search matches every icon |
| IconPicker.FilteredIsFirstMatches | app/components/IconPicker.tsx:27-33 | for every search the results are the first twenty matches |
| IconPicker.FindIcon | app/components/IconPicker.tsx:50 | the first icon with the id, or none exactly when no icon has it |
| IconPicker.SelectedIcon | app/components/IconPicker.tsx:49-51 | nothing for an absent or empty value, else the first icon with that id |
| IconPicker.SelectedIconOfId | app/components/IconPicker.tsx:49-51 | an id some icon has selects an icon with that id |
| IconPicker.SelectedIconOfKey | app/components/IconPicker.tsx:49-51 | every non-empty key of the icon set is found again under its own id |

## Left out

- Prisma, the database and `revalidatePath`: the store is two maps with id
  counters. A create naming a drawer that does not exist throws "Failed to
  add item", standing in for the foreign-key error. The `getDrawers`,
  `getItems`, `deleteDrawer` and `updateDrawer` actions are not part of this
  model.
- `console.log` and `console.error` calls: they have no effect on state.
- Concurrency: each action and handler runs to completion alone. React's
  batching of state updates is not modelled beyond that.
- Numbers: JavaScript numbers are modelled as integers or NaN. `Number(...)`
  reads blank text as 0 and an optionally signed decimal numeral as its value.
  Fractions, exponents, hex numerals and Infinity read as NaN here.
- ExplodedView geometry and rendering: `heightScale`, percentage positions,
  rotation, zoom and the mouse and wheel handlers. These are floating-point
  CSS rendering.
- JSX, styling, `getDialogPosition` and focus `setTimeout` calls.
  `app/components/DrawerControls.tsx`, `app/ItemSearch.tsx` and the other
  presentation files are not part of this model.
- The click-outside `document` listeners of the two pickers, and the
  `isOpen`/`search` state of the icon picker.
- The in-cell input's `onBlur` update of DrawerGrid: it calls the same
  `handleUpdateItem` that `Submit` and `KeyDown` model.
- The `handleAddItem` helper of `app/ItemList.tsx`: it only sends a
  two-field form to `addItem`, which `Actions.AddItemData` covers.
- The `@mdi/js` icon set: its keys and paths are an input sequence.
- `Object.values` order of the ItemList groups: the model is the dictionary
  keyed by drawer id.
- Case folding: `toLowerCase` is modelled on ASCII letters only.
- GridProjection.ProjectSlice: requires non-negative drawer dimensions,
  because `Array(n)` with a negative `n` throws in JavaScript and the model
  does not cover that.
- DrawerGrid.BoxesIntersectIffShareCell: stated for non-empty boxes only. For
  an item of depth or width 0, the interval test still reports an overlap,
  and no cell is shared.
- ColorPicker.HexToRgba: takes the opacity as the text the template prints,
  not as a number.
