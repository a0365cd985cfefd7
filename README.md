# To-do list model

This project models the `model` object of a single-page to-do list
(`script.js`). The model owns an ordered list of items. Each item is a name
and a `done` flag, and an item's position in the list is its identity. The
model creates, renames, deletes and clears items, toggles one flag or all of
them, and counts items. After every change it writes the whole list to local
storage. At startup it loads the stored list, or the built-in two-item list
when nothing is stored.

- `items.dfy` (module `TodoItems`): the `Item` and `Counts` values, the
  default seed list, and the list each mutation produces as a function of
  the old list (`Renamed`, `Removed`, `Toggled`, `WithAllDone`, `ToggledAll`,
  `Loaded`). It also holds the lemmas about done counts and toggling.
- `model.dfy` (module `TodoModel`): class `Model`. Its field `items` is the
  list, which the methods reassign in place. Its field `persisted` is the
  snapshot in storage (`None` when nothing is stored). Each mutating method
  states the new `items` in terms of the old one, and states that storage now
  holds `Some(items)`. `CountItems` and `AllItemsDone` are loops with
  invariants, like the source's `forEach` and `every`. `Mirrored()` holds
  after the constructor and after every operation. It says that a fresh
  start would load exactly the list in memory.
- `scenarios.dfy` (module `TodoScenarios`): short sessions built from the
  class's methods. They cover the default start, "Buy milk", clearing the
  list, and a restart that reads back a saved list.

Storage is abstracted to the snapshot value. A JSON encoding followed by
decoding is taken to give back the same list. The argument of `createItem`
is an `Option<string>`, where `None` stands for any argument that is not a
string.

Two details of the code are easy to miss:
- At startup with nothing stored, the default list is put in memory but not
  written to storage (script.js:40-42 has no save). Storage stays `None`
  until the first mutation.
- `toggleAllItems` reads `every` on an empty list as "all done", so it
  leaves an empty list empty.

## Model

| member | source | states |
|---|---|---|
| `TodoItems.DoneCount` | script.js:47-52 | the number of done items never exceeds the number of items |
| `TodoItems.AllDoneIffFullCount` | script.js:45-57 | the done count equals the item count exactly when every item is done (both directions) |
| `TodoItems.Renamed` | script.js:69-71 | renaming position i sets only that item's name; its flag, every other item and the length are unchanged |
| `TodoItems.Removed` | script.js:74-76 | deleting position i shortens the list by one, keeps the items before i and shifts the later ones left by one |
| `TodoItems.Toggled` | script.js:84-87 | toggling position i flips only that item's flag; its name, every other item and the length are unchanged |
| `TodoItems.WithAllDone` | script.js:92 | the bulk assignment keeps every name and the length and sets every flag to the same value |
| `TodoItems.AppendKeepsDoneCount` | script.js:59-64 | creating an item adds one to the item count and nothing to the done count |
| `TodoItems.RenamedDoneCount` | script.js:69-71 | renaming never changes the done count |
| `TodoItems.RemovedDoneCount` | script.js:74-76 | deleting an item lowers the done count by one exactly when that item was done |
| `TodoItems.ToggledDoneCount` | script.js:84-87 | toggling one item moves the done count by exactly one, down if it was done and up otherwise |
| `TodoItems.ToggleTwice` | script.js:84-87 | toggling the same position twice restores the original list |
| `TodoItems.WithAllDoneCount` | script.js:92 | after setting every flag to b, the done count is the length if b holds and 0 otherwise |
| `TodoItems.ToggledAllCount` | script.js:90-93 | toggle-all from an all-done list leaves none done; from any other list it leaves all done |
| `TodoItems.ToggleAllTwiceFromMixed` | script.js:90-93 | from a list that is not all done, two toggle-alls give all done, then all undone with the same names |
| `TodoItems.ToggledAllChanges` | script.js:90-93 | toggle-all always changes a non-empty list |
| `TodoItems.DefaultCount` | script.js:2-13 | the default seed has two items, one done, so it is not all done |
| `TodoModel.Model.constructor` | script.js:97-98 | startup takes what storage holds and loads it; the list in memory is the stored list, or the default when nothing is stored |
| `TodoModel.Model.SaveToLocalStorage` | script.js:29-32 | storage then holds exactly the current list |
| `TodoModel.Model.LoadFromLocalStorage` | script.js:35-43 | the list becomes the stored snapshot if one exists, otherwise the default seed; storage is untouched |
| `TodoModel.Model.CountItems` | script.js:45-57 | returns the number of items and the number of done items, and the two are equal exactly when all items are done |
| `TodoModel.Model.CreateItem` | script.js:59-67 | a non-empty string name appends `{name, done: false}` at the end and saves; any other argument leaves the list and storage unchanged |
| `TodoModel.Model.ChangeItemName` | script.js:69-72 | for a valid index, the list becomes `Renamed` of the old list and is saved |
| `TodoModel.Model.DeleteItem` | script.js:74-77 | for a valid index, the list becomes `Removed` of the old list and is saved |
| `TodoModel.Model.DeleteAllItems` | script.js:79-82 | the list becomes empty and storage holds the empty list |
| `TodoModel.Model.ToggleItem` | script.js:84-88 | for a valid index, the list becomes `Toggled` of the old list and is saved |
| `TodoModel.Model.AllItemsDone` | script.js:91 | returns true exactly when every item is done, stopping at the first undone item |
| `TodoModel.Model.ToggleAllItems` | script.js:90-94 | every flag becomes the negation of "all items were done", names are kept, and the list is saved |
| `TodoScenarios.FirstStartCounts` | script.js:35-57 | a first start with empty storage counts two items, one done |
| `TodoScenarios.BuyMilk` | script.js:59-88 | on the default list, creating "Buy milk" and toggling position 2 gives a done "Buy milk" there and counts of three and two |
| `TodoScenarios.ClearAll` | script.js:79-82 | after clearing, the counts are zero and storage holds the empty list, whatever was stored before |
| `TodoScenarios.Restart` | script.js:29-43 | a fresh start on what the model saved reads back the same list: same names, same flags, same order |

## Left out

- The `controller` and `view` objects (script.js:100-263): DOM queries, event
  listeners, key codes, the `confirm()` dialog and rendering. This includes
  the controller's rule that an empty name on focus-out deletes the item.
- `localStorage` and `JSON.stringify`/`JSON.parse` are browser APIs. Storage
  is the `persisted` snapshot, and encoding then decoding is taken to be
  exact. A malformed stored string, which makes `JSON.parse` throw, is not
  modelled.
- The `console.log` calls (script.js:30, 37) only produce output.
- Indices arrive from the page as the string `id` of a list element, and
  JavaScript converts them to numbers. The model takes a natural number.
- An index out of range is a precondition violation here:
  `requires index < |items|`. In the source, `changeItemName` and
  `toggleItem` (script.js:70, 85-86) then read `undefined` and throw a
  TypeError before saving. `deleteItem`'s `splice` (script.js:75) does not
  throw: past the end it removes nothing, a negative index removes from the
  end, and it saves either way.
- `localStorage.setItem` (script.js:31) is taken to always succeed. In the
  source a failed write (a quota error) leaves `items` changed and storage
  stale. `Mirrored()` and every `persisted == Some(items)` postcondition hold
  only under this assumption.
- Items are values, not shared objects. The source changes `item.done` and
  `item.name` on the object in the array. No other reference to those objects
  exists, so nothing observable is lost.
- `done` is a boolean here. Items loaded from storage could hold other JSON
  values. `countItems` tests `=== true` while `toggleAllItems` tests
  truthiness, and the two readings differ only on such non-boolean flags.
