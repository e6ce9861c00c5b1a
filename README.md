# Event-supply checklist: list state of the checklist and explore pages

This project models, in Dafny, the client-side state logic of a checklist manager for event-planning supplies: the checklist page (`app/checklist/page.tsx`) and the catalogue import of the explore page (`app/explore/page.tsx`).

On the checklist page, `filteredItems`, `totalCost`, `completedCost`, the remaining cost, the completion badge, the category options and the overdue badge are derived from the item list. Handlers send requests to the item API and then re-read the whole collection:
- `addItem` posts a new item;
- `toggleItem` and `updateItem` send a `PUT` of a full record;
- `deleteItem` sends a `DELETE`;
- the minus and plus buttons of a row adjust its quantity.

On the explore page, a quantity is kept per product, and a product is imported as a checklist item.

Files and modules:
- `wrappers.dfy` (`Wrappers`): `Option`. `None` stands for a JSON `null` or an omitted key.
- `text.dfy` (`Text`): ASCII `Lower`/`LowerStr` for `toLowerCase`, `Contains` for `includes`, and `Trim` for `trim`, using ECMAScript's white-space set. Each comes with a characterisation: `Contains` is "`t` occurs at some position", and `Trim` is "the slice between white margins, empty exactly for blank input".
- `items.dfy` (`Items`): the `Item` record, the `Draft` body of `POST`, the `Request` type, `OrElse` for `Number(v) || fallback`, and the item API. The API is modelled as an abstraction: `Apply` gives the stored collection after a successful request. `ItemStore.Handle` applies a request when it succeeds and changes nothing when it fails.
- `checklist.dfy` (`Checklist`): the pure derivations, the request each handler builds from the list and the form, and the lemmas about both.
- `checklist_page.dfy` (`ChecklistState`): the page as a class. The list, the add form and the three filters are its fields. Each handler is a method whose postcondition fixes the request sent, the new stored collection and the new page state.
- `explore.dfy` (`Explore`): `Product`, the per-product quantity lookup, the product-to-draft mapping, and the explore page as a class holding the `quantities` map.
- `checklist_examples.dfy` (`ChecklistExamples`): concrete cases:
  - "kursi" among pending items;
  - the 25000/5000/20000 cost split;
  - 1 of 3 done gives 33%;
  - the search failure of the finding below.

Modelling choices:
- The `label` key is the field `name`, because `label` is a Dafny keyword.
- `Item.category`, `notes`, `dueDate` and `photo` are `Option`. The TypeScript type says `string` for `category` and `notes`, but `addItem` sends `null` for empty ones (`app/checklist/page.tsx:62-66`). The code is followed here.
- Network outcomes are parameters of the methods. `delivered` says whether the mutating request succeeded. `refreshed` says whether the re-read that follows it (`fetchItems`) succeeded. The id the API assigns to a posted item is a parameter, `newId`. When a draft leaves `priority` or `done` unset, the API is taken to store `Medium` and `false`.
- Dates are day numbers. `now` is a millisecond instant. `new Date("YYYY-MM-DD")` is midnight UTC of that day, so an open item due today counts as overdue once the day has begun (`Checklist.OverdueByDay`).
- `Number(v)` is an `Option<int>`, with `None` for `NaN`. The model follows the code, which keeps negative numbers: `Number(v) || 1` replaces only `0` and `NaN`, so a negative number typed in the field is kept as typed.
- Prices, costs and quantities are integers.

## Model

| member | source | states |
|---|---|---|
| `Text.Lower` | app/checklist/page.tsx:149-151 | one character lower-cased: the result is never an ASCII capital, a capital moves to its small letter, every other character is kept |
| `Text.LowerStr` | app/checklist/page.tsx:149-151 | lower-casing keeps the length and maps each character through ASCII `Lower` |
| `Text.Contains` | app/checklist/page.tsx:149-151 | `s.includes(t)`: `t` is a prefix of `s` or of one of its suffixes; `ContainsIffOccurs` characterises it |
| `Text.ContainsIffOccurs` | app/checklist/page.tsx:149-151 | `includes` holds exactly when the term occurs at some position of the text |
| `Text.ContainsEmpty` | app/checklist/page.tsx:149-151 | every text includes the empty term |
| `Text.Trim` | app/checklist/page.tsx:52 | `trim` returns the slice between white margins; it is empty exactly when the text is blank, and otherwise starts and ends with a non-white character |
| `Items.OrElse` | app/checklist/page.tsx:250 | `Number(v) \|\| fallback` keeps a non-zero number, gives the fallback for `0` and `NaN`, and is never 0 when the fallback is non-zero |
| `Items.Created` | app/checklist/page.tsx:54-70 | the record created for a posted draft carries the draft's values under the assigned id; it is done only when the draft says `done: true`, and its priority defaults to medium |
| `Items.Replace` | app/checklist/page.tsx:92-100 | a `PUT` replaces each record stored under the id, keeps the length, and leaves every other record in place |
| `Items.Remove` | app/checklist/page.tsx:135-137 | after a `DELETE`, the collection holds exactly the records with another id, as an order-preserving subsequence of the old one |
| `Items.ReplaceUnique` | app/checklist/page.tsx:116-121 | with unique ids, a `PUT` under an item's own id changes that one position only and keeps ids unique |
| `Items.RemoveKeepsUniqueIds` | app/checklist/page.tsx:133-146 | deleting keeps ids unique |
| `Items.PostKeepsUniqueIds` | app/checklist/page.tsx:54-70 | posting under a fresh id keeps ids unique |
| `Items.Apply` | app/checklist/page.tsx:54-137 | the stored collection after a successful request: a `POST` (line 55) appends one record under the assigned id and keeps the rest; a `PUT` (line 93) keeps the length and every record under another id; a `DELETE` (line 136) keeps exactly the records with another id |
| `Items.ItemStore.Handle` | app/checklist/page.tsx:71-85 | a successful request applies its change to the stored collection; a failed one leaves it unchanged |
| `Checklist.MatchesSearchAsWritten` | app/checklist/page.tsx:149-151 | the search as evaluated, with short-circuit `\|\|`, fails exactly when the label does not match and the category is `null`, or when neither label nor category matches and the notes are `null`; otherwise it agrees with `MatchesSearch` |
| `Checklist.SearchFailsOnAddedItem` | app/checklist/page.tsx:62 | an item that `addItem` created with an empty category makes the search fail for every term not in its label |
| `Checklist.SearchCorrected` | app/checklist/page.tsx:149-151 | with `null` read as "", an item without a category is found by its label or its notes, and one without category or notes by its label alone |
| `Checklist.MatchesSearch` | app/checklist/page.tsx:149-151 | the corrected search test: the lower-cased term is included in the lower-cased label, category or notes, with `null` read as "" |
| `Checklist.MatchesCategory` | app/checklist/page.tsx:152 | `!filterCategory \|\| item.category === filterCategory`: no category filter, or the item carries exactly that category |
| `Checklist.MatchesStatus` | app/checklist/page.tsx:153-155 | `all` passes every item, `done` the done ones, `pending` the open ones |
| `Checklist.Keep` | app/checklist/page.tsx:156 | an item is listed when it passes all three tests |
| `Checklist.Filtered` | app/checklist/page.tsx:148-157 | `filteredItems` is no longer than `items`, and every item it lists passes the search, category and status tests (`Keep`) |
| `Checklist.FilteredCounts` | app/checklist/page.tsx:148-157 | a record the tests pass is listed as many times as it occurs in `items`; a record they reject is not listed |
| `Checklist.FilteredIsSubsequence` | app/checklist/page.tsx:148-157 | `filteredItems` is an order-preserving subsequence of `items` |
| `Checklist.FilteredMembership` | app/checklist/page.tsx:148-157 | an item is listed exactly when it is in `items` and passes the search, category and status tests together |
| `Checklist.FilteredComposes` | app/checklist/page.tsx:148-157 | filtering by the three tests at once equals filtering by search, then category, then status |
| `Checklist.EmptySearchMatches` | app/checklist/page.tsx:149-151 | an empty search term passes every item |
| `Checklist.FilteredAfterReset` | app/checklist/page.tsx:218-222 | with the filters as Reset leaves them, the list shown is all of `items`, in order |
| `Checklist.StatusFilterSelects` | app/checklist/page.tsx:153-155 | the status filter alone selects exactly the done items (`done`) or the pending items (`pending`) |
| `Checklist.DoneItems` | app/checklist/page.tsx:160 | `items.filter(item => item.done)`, no longer than `items`; `DonePendingMembers` gives its members |
| `Checklist.DonePendingMembers` | app/checklist/page.tsx:160 | the done items are the members with `done`; the pending items are the members without it |
| `Checklist.DonePendingSplit` | app/checklist/page.tsx:169 | the done count plus the pending count is the list length |
| `Checklist.TotalCost` | app/checklist/page.tsx:159 | `totalCost`: the sum of `unitCost * quantity` over the list; `TotalCostConcat` and `TotalCostSplits` relate it to the done and pending parts |
| `Checklist.CompletedCost` | app/checklist/page.tsx:160 | `completedCost`: the total over the done items; `CostBounds` places it between 0 and `totalCost` |
| `Checklist.RemainingCost` | app/checklist/page.tsx:342 | the remaining-cost card, `totalCost - completedCost`; `RemainingIsPendingCost` shows it is the cost of the open items |
| `Checklist.TotalCostConcat` | app/checklist/page.tsx:159 | the total of two lists joined is the sum of their totals |
| `Checklist.TotalCostSplits` | app/checklist/page.tsx:159-160 | `totalCost` is the cost of the done items plus the cost of the pending ones |
| `Checklist.RemainingIsPendingCost` | app/checklist/page.tsx:342 | `totalCost - completedCost` is the cost of the items not done |
| `Checklist.CostBounds` | app/checklist/page.tsx:159-160 | with no negative unit cost or quantity, `0 <= completedCost <= totalCost` |
| `Checklist.RoundedPercent` | app/checklist/page.tsx:171 | `Math.round(100 * num / den)` is the integer nearest the ratio, rounding halves up |
| `Checklist.DoneCount` | app/checklist/page.tsx:169 | the number of done items, at most the list length |
| `Checklist.CompletionPercent` | app/checklist/page.tsx:169-171 | the badge is 0 for an empty list, always lies in [0, 100], and otherwise is `100 * done / len` rounded half up |
| `Checklist.PercentInRange` | app/checklist/page.tsx:171 | a rounded share of at most the whole lies in [0, 100] |
| `Checklist.NamedCategories` | app/checklist/page.tsx:201 | `map(category).filter(Boolean)` holds exactly the non-empty categories some item carries |
| `Checklist.Distinct` | app/checklist/page.tsx:201 | `[...new Set(s)]` has no repeats and the same members as `s` |
| `Checklist.CategoryOptions` | app/checklist/page.tsx:201 | the category options have no repeats and no empty string; each is some item's category, and every non-empty item category is an option |
| `Checklist.Overdue` | app/checklist/page.tsx:381 | the overdue badge: a due date is set, its midnight lies before `now`, and the item is open; `OverdueByDay` restates it on the day scale |
| `Checklist.OverdueByDay` | app/checklist/page.tsx:381 | an open item due before today is overdue, one due after today is not, and one due today is overdue except at midnight exactly |
| `Checklist.OverdueStays` | app/checklist/page.tsx:381 | an overdue item stays overdue as time goes on |
| `Checklist.OrNull` | app/checklist/page.tsx:62-66 | `x \|\| null` on a text is `null` exactly for "", and reading `null` back as "" gives the text again |
| `Checklist.AddDraft` | app/checklist/page.tsx:52-69 | nothing is sent exactly when the text is blank; otherwise the label is the trimmed, non-empty text, empty category and notes become `null`, and the draft has no photo and `done: false` |
| `Checklist.FindItem` | app/checklist/page.tsx:89 | `find` fails exactly when no item has the id; otherwise it returns the first item with it |
| `Checklist.FindUnique` | app/checklist/page.tsx:113 | with unique ids, `find` returns the item stored under the id |
| `Checklist.Toggled` | app/checklist/page.tsx:97-100 | the toggled record differs from the item in `done` alone |
| `Checklist.ToggleRequest` | app/checklist/page.tsx:88-100 | nothing is sent for an unknown id; otherwise a `PUT` to that id of an item with that id, `done` flipped |
| `Checklist.Merge` | app/checklist/page.tsx:121 | `{ ...item, ...updates }`: each key the update sets replaces the item's value, every other key is kept; `MergeNoChanges` and `MergeCombine` are its laws |
| `Checklist.MergeNoChanges` | app/checklist/page.tsx:121 | an empty update leaves the record as it is; a `{quantity}` update changes the quantity and nothing else |
| `Checklist.MergeCombine` | app/checklist/page.tsx:121 | merging two updates in turn is merging their shallow union with the later winning; re-merging an update changes nothing |
| `Checklist.UpdateRequest` | app/checklist/page.tsx:112-121 | nothing is sent for an unknown id; otherwise a `PUT` to that id of an item with that id, merged with the update |
| `Checklist.DecrementRequest` | app/checklist/page.tsx:391-398 | the minus button's request: `updateItem` with `quantity - 1` while that is positive, else `deleteItem`; `DecrementNeverSendsNonPositive` states what it sends |
| `Checklist.IncrementRequest` | app/checklist/page.tsx:402-404 | the plus button's request: `updateItem` with `quantity + 1`; `IncrementSendsNext` states what it sends |
| `Checklist.DecrementNeverSendsNonPositive` | app/checklist/page.tsx:391-398 | the minus button either writes `quantity - 1 > 0` over the stored item and changes nothing else, or sends `DELETE` when the quantity is 1 or less |
| `Checklist.DecrementLeavesNoNonPositive` | app/checklist/page.tsx:391-398 | after a successful minus press, no record stored under that id has a quantity of 0 or less |
| `Checklist.IncrementSendsNext` | app/checklist/page.tsx:402-404 | the plus button writes `quantity + 1` over the stored item and changes nothing else |
| `Checklist.ToggleChangesOneItem` | app/checklist/page.tsx:88-110 | with unique ids, a successful toggle flips `done` of the one item under the id; every other item is unchanged |
| `Checklist.UpdateChangesOneItem` | app/checklist/page.tsx:112-131 | with unique ids and an update that leaves `id` alone, a successful update writes the merged record over that one item; every other item is unchanged |
| `Checklist.AddRaisesTotal` | app/checklist/page.tsx:54-72 | a successful add raises `totalCost` by `unitCost * quantity` and leaves `completedCost` unchanged |
| `ChecklistState.ChecklistPage.constructor` | app/checklist/page.tsx:21-31 | the page starts with an empty list, an empty form (quantity 1, priority medium, cost 0) and no filter |
| `ChecklistState.ChecklistPage.Visible` | app/checklist/page.tsx:148-157 | the list shown: `Filtered` over the page's items and its three filter fields |
| `ChecklistState.ChecklistPage.Refresh` | app/checklist/page.tsx:33-45 | a successful fetch replaces the list with the stored collection; a failed one leaves it; form and filters stay |
| `ChecklistState.ChecklistPage.AddItem` | app/checklist/page.tsx:51-86 | a blank label sends nothing and changes nothing; otherwise the draft is posted, and on success the record is stored, the list is re-read and the form is reset; on failure nothing changes |
| `ChecklistState.ChecklistPage.ClearForm` | app/checklist/page.tsx:73-79 | the form goes back to text "", quantity 1, category "", medium, notes "", cost 0, no date |
| `ChecklistState.ChecklistPage.Send` | app/checklist/page.tsx:102-106 | the shared tail of toggle, update and delete: a `PUT` or `DELETE` is applied to the store only on success, the list is re-read only after a success and a successful fetch, and the form and filters stay |
| `ChecklistState.ChecklistPage.ToggleItem` | app/checklist/page.tsx:88-110 | sends `ToggleRequest`; the stored collection and the list change only after success and a successful re-read |
| `ChecklistState.ChecklistPage.UpdateItem` | app/checklist/page.tsx:112-131 | sends `UpdateRequest`; the stored collection and the list change only after success and a successful re-read |
| `ChecklistState.ChecklistPage.DeleteItem` | app/checklist/page.tsx:133-146 | always sends `DELETE` for the id; on success the records under it go and the list is re-read |
| `ChecklistState.ChecklistPage.Decrement` | app/checklist/page.tsx:391-398 | sends `DecrementRequest`: an update to `quantity - 1` while that is positive, else a delete |
| `ChecklistState.ChecklistPage.Increment` | app/checklist/page.tsx:402-404 | sends an update to `quantity + 1` |
| `ChecklistState.ChecklistPage.SetQuantityInput` | app/checklist/page.tsx:250 | the quantity field stores `Number(v) \|\| 1`, never 0, and nothing else changes |
| `ChecklistState.ChecklistPage.SetUnitCostInput` | app/checklist/page.tsx:284 | the cost field stores `Number(v) \|\| 0`, 0 for `NaN`, and nothing else changes |
| `ChecklistState.ChecklistPage.ResetFilters` | app/checklist/page.tsx:218-222 | the three filters are cleared and the shown list is then all of `items` |
| `ChecklistExamples.SearchAndStatusExample` | app/checklist/page.tsx:148-157 | searching "kursi" among pending items lists only the open chair, not the done table |
| `ChecklistExamples.CostExample` | app/checklist/page.tsx:159-160 | 2 x 10000 plus 1 x 5000 (done) gives total 25000, completed 5000 and remaining 20000 |
| `ChecklistExamples.PercentExample` | app/checklist/page.tsx:169-171 | 1 done of 3 shows 33; an empty list shows 0 |
| `ChecklistExamples.DoneNotOverdue` | app/checklist/page.tsx:381 | a done item is never overdue |
| `ChecklistExamples.SearchFailsExample` | app/checklist/page.tsx:149-151 | "Kursi" added without a category makes the search for "meja" fail |
| `Explore.QuantityFor` | app/explore/page.tsx:24 | `quantities[id] \|\| 1` is never 0: the stored value when it is non-zero, else 1; the input shows the same value (line 101) |
| `Explore.DisplayPrice` | app/explore/page.tsx:93 | the price the product card shows, `price * 15000`; `ImportDraft` posts exactly this as the unit cost |
| `Explore.ImportDraft` | app/explore/page.tsx:31-38 | the posted body has label = title, category, notes = description, photo = thumbnail and unitCost = the price shown on the card; priority, due date and done are left unset |
| `Explore.SavedQuantityIsTyped` | app/explore/page.tsx:101-102 | after the input stores `Number(v) \|\| 1` for a product, the save reads back that same value |
| `Explore.ImportedItem` | app/explore/page.tsx:31-38 | the imported record is open, medium priority and labelled with the title; its line cost is the shown price (line 93) times the chosen quantity |
| `Explore.ExplorePage.constructor` | app/explore/page.tsx:17 | the page starts with no quantity chosen |
| `Explore.ExplorePage.HandleQuantityChange` | app/explore/page.tsx:19-21 | sets product `p`'s entry to `q`; every other product's quantity is unchanged |
| `Explore.ExplorePage.QuantityInput` | app/explore/page.tsx:102 | the input stores `Number(v) \|\| 1`, so 0 and `NaN` are never stored |
| `Explore.ExplorePage.SaveItem` | app/explore/page.tsx:23-48 | posts the product with the chosen quantity; the record is stored and the page navigates only when the post succeeds |

## Findings

| source | as written | input that shows it | evidently intended | confidence | as-written member | corrected member |
|---|---|---|---|---|---|---|
| app/checklist/page.tsx:149-151 | the search reads `item.category.toLowerCase()` and `item.notes.toLowerCase()`, but `addItem` stores `null` for an empty category or notes (lines 62, 64) | add "Kursi" with an empty category, then type "meja" in the search box: the label does not match, so `null.toLowerCase()` is evaluated and throws during rendering | a missing category or note is read as empty text and does not match, as the row display at lines 410 and 422 already treats it | not executed; assumes the API returns the `null` it was sent | `Checklist.MatchesSearchAsWritten` (`ChecklistExamples.SearchFailsExample`) | `Checklist.SearchCorrected` |

The rest of the model filters with the corrected `Checklist.MatchesSearch`.

## Left out

- Requests, response status codes, JSON encoding and `console.error` logging are not modelled. Each request is only a success or a failure (`delivered`, `refreshed`).
- Loading on mount (`useEffect`) is not modelled. `ChecklistPage.Refresh` is the same fetch, and the catalogue download on the explore page is network I/O.
- The `products` list of the explore page is not modelled: only the network download fills it.
- `window.location.href` navigation is modelled only as the returned `navigate` flag.
- Rendering is out of scope: JSX, CSS classes, priority badge texts, `toLocaleString`/`toLocaleDateString` and the 80-character description preview.
- The progress-bar width (line 178) is left out because it is an unrounded floating-point percentage.
- Races between requests and re-reads that are in flight together are not modelled. Each handler runs to completion before the next.
- The `createdAt`/`updatedAt` timestamps are left out of `Item`. The API sets them and the page never reads them.
- The plain text inputs (`setText`, `setCategory`, `setNotes`, `setPriority`, `setDueDate`, `setSearchTerm`, `setFilterCategory`, `setFilterStatus`) are not modelled as methods. They store the typed value as is.
- Checklist.CompletionPercent: rounds the exact ratio. The source rounds the floating-point value `(done / len) * 100`, which can differ from the exact value at some halves.
- Text.LowerStr: lower-cases ASCII letters only. `toLowerCase` also maps non-ASCII letters.
- Checklist.OverdueByDay: takes a due date as a day number, so due-date strings that do not parse are not represented. In the source they never show the badge.
- The API's own behaviour is an abstraction (`Items.Apply`), because its source is not part of this model: id assignment, defaults for unset keys, and replace-by-id.
- Fractional prices and quantities (JavaScript numbers) are not modelled. Every number is an integer.
