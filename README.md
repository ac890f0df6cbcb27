# Task manager: the client store, its card list, and the task table

A small task manager has two halves. This project models both and proves properties of them.

- **Browser client (`script.js`).** Each server response becomes an action on one action stream. A single subscriber handles every action:
  - it applies the action to an id-keyed task store, a JS `Map`;
  - it publishes the new store, whose subscriber recomputes the doughnut chart's `[completed, pending]` pair;
  - it updates the card list in the page.

  The add form trims its input. It ignores blank titles and otherwise clears the field and posts the task.
- **Server (`main.py`).** It holds a SQLite `tasks` table with an `AUTOINCREMENT` id. Four routes list, create, update and delete rows.

The modules are:

- `Tasks` (tasks.dfy): the task record `{id, title, completed}` that both halves exchange.
- `Store` (store.dfy): the subscriber's effect on the store, as pure functions.
  - `Load` is `clear` followed by `set` for each task.
  - `Reduce` handles the four actions.
  - `Replay` is the left fold over a run of actions.
  - `Summarize` is the chart's pair.
- `Cards` (cards.dfy): the list container's children as an ordered `seq<Card>`.
  - A card records its `data-id`, its title text, its checkbox and its strikethrough.
  - `Find` is `querySelector`: the first card in document order with that `data-id`.
  - `AddCard`, `PatchCard`, `RemoveCard` and `RenderAll` are the four DOM helpers.
- `Form` (form.dfy):
  - `String.prototype.trim`, using the ECMAScript WhiteSpace and LineTerminator code points;
  - the submit gate.
- `Page` (page.dfy):
  - the class `TaskPage`, whose fields are the store snapshot, the cards and the chart data. Its methods are the imperative subscriber (a copy, then `clear`/`set`/`delete`, the `forEach` as a loop, then publish) and the card helpers, each proved equal to the functions above.
  - `Mirrors`, the condition under which the cards picture the store, and the actions that keep it.
- `Server` (server.dfy):
  - the table as `map<int, Row>` plus the AUTOINCREMENT counter;
  - the four handlers as pure functions;
  - the class `TaskApp`, whose methods change the rows and counter in place and are proved against those functions.
- `Sync` (sync.dfy): client and server together.
  - Suppose each user event's request is answered and delivered before the next event. Then the store equals the table and the cards picture it, after any run of events.
  - When answers overtake each other, this fails, and a concrete run shows how.

In two places the code does not do what one might expect of it. The model follows the code in both.

- **Error responses.** A failed request might be expected to leave the page as it was. The code never checks `response.ok`, and `fetch` does not reject on a 404.
  - The delete producer dispatches `delete` whatever the server answered. `Sync.Step` models exactly that.
  - The update producer would dispatch the 404 error body as a task. This path is unreachable in the model: `Sync.ToggleFindsRow` proves that a checkbox on a page in sync never meets a 404. The path itself is not modelled (see "Left out").
- **Repeated ids in `init`.** One might expect the cards to picture the store. For an `init` whose ids repeat, they do not:
  - the store keeps the last task with an id (`Map.set` overwrites);
  - the cards keep the first (the guard in `addTaskCard` skips later ones);
  - `Page.InitWithRepeatedId` proves this.

The server's listing is modelled in ascending id order. That is the rowid scan order of `SELECT * FROM tasks` on this table.

## Model

| member | source | states |
|---|---|---|
| Store.Load | script.js:100-103 | `init` builds a map whose keys are exactly the ids of `action.tasks`. For a repeated id the later task wins. Every entry sits under its own id. |
| Store.Reduce | script.js:97-126 | `init` replaces the store by `Load`. `add` and `update` store the task under its id, inserting it if absent, and keep every other entry. `delete` drops exactly that id and keeps the others. A `delete` of an absent id leaves the store as it was. Keying by id is preserved. |
| Store.Replay | script.js:97-126 | Folding the subscriber over a run of actions in delivery order. A run of only deletes never adds an entry or changes one, and a run of only adds and updates never loses an id. `Store.ReplaySnoc` and `Store.InitForgetsHistory` state its other properties. |
| Store.ReplaySnoc | script.js:97-126 | The store after a run of actions is the left fold of the subscriber over them. |
| Store.ReplayKeyedById | script.js:97-126 | Every store reachable by any run of actions from one keyed by id is keyed by id. |
| Store.InitForgetsHistory | script.js:100-103 | After an `init`, the store no longer depends on anything delivered before it. |
| Store.AddTwice | script.js:107-109 | Delivering the same `add` twice is the same as delivering it once. |
| Store.InitDeleteAdd | script.js:97-126 | `init`, then `delete x`, then `add y` leaves exactly the initial ids without `x`, plus `y`, with the right task under each. |
| Store.CompletedPendingSplit | script.js:129-131 | The completed and pending entries are disjoint and together are the whole store. |
| Store.Summarize | script.js:128-135 | The pair is (number of completed entries, number of the rest), and the two add up to the store's size. |
| Store.CountCompleted | script.js:130 | The filtered count never exceeds the list's length. |
| Store.SummaryOfValues | script.js:129-131 | Counting completed tasks over `Array.from(taskMap.values())`, one value per key in any order, gives `Summarize`'s pair. |
| Store.SummaryOfRemoval | script.js:119-133 | Removing a present entry takes exactly one off the side its `completed` flag is on. |
| Store.SummaryOfUpsert | script.js:107-133 | Storing a task counts it on its own side, after discounting whatever was stored under its id. |
| Store.ThreeCompletedTwoPending | script.js:128-133 | A store of three completed and two pending tasks gives the chart `[3, 2]`. |
| Cards.NewCard | script.js:146-157 | A new card carries the task's id and title, and its checkbox and strikethrough both equal `completed`. |
| Cards.Find | script.js:190 | The lookup fails exactly when no card has that `data-id`. Otherwise it returns the first card in document order with it. |
| Cards.AddCard | script.js:143-178 | If a card with the id exists, nothing changes. Otherwise exactly one card showing the task is appended at the end and the others keep their places. Card ids stay unique. |
| Cards.PatchCard | script.js:180-187 | With no card for the id, nothing changes. Otherwise only that card changes, and only in its checkbox and strikethrough, which become `completed`. Its title stays as it was. Ids and uniqueness are kept. |
| Cards.RemoveCard | script.js:189-192 | With no card for the id, nothing changes. Otherwise the first card with that id is cut out: the result is the cards before it followed by the cards after it, in their order. Every card in the result was in the list, and with unique ids the id set loses exactly that id. |
| Cards.RenderAll | script.js:138-141 | Rendering gives unique card ids, exactly the ids of the tasks, and a card for the first task with each id. |
| Cards.RenderAllOrder | script.js:138-141 | Even when ids repeat, the cards come in the order in which their ids first appear among the tasks. |
| Cards.RenderAllDistinct | script.js:138-141 | With distinct ids, rendering gives one card per task, in order, each showing its task. |
| Form.LeadingSpaces | script.js:75 | A count of leading characters, all whitespace, stopping before the first non-whitespace character. |
| Form.TrailingSpaces | script.js:75 | The same count at the end of the string. |
| Form.Trim | script.js:75 | `trim()` returns the part of the value between a whitespace prefix and a whitespace suffix. The result has no whitespace at either end, and it is empty exactly when the value is all whitespace. |
| Form.TrimIdempotent | script.js:75 | Trimming twice is trimming once. |
| Form.SubmitGate | script.js:75-81 | A blank value issues nothing and leaves the field alone. Any other value clears the field and issues a create request with the trimmed title and `completed: false`. |
| Form.SubmitBuyMilk | script.js:75-81 | Submitting "Buy milk" clears the field and issues `{title: "Buy milk", completed: false}`. |
| Page.CardsAfter | script.js:97-126 | The card half of the subscriber (lines 104, 110, 116 and 122): `RenderAll` for `init`, `AddCard` for `add`, `PatchCard` for `update`, `RemoveCard` for `delete`. Unique card ids are kept, and the card ids change as the store's keys do. `Page.DispatchKeepsMirror` states that coherent actions keep the picture. |
| Page.MirrorKeyedById | script.js:97-126 | A store pictured by cards is keyed by id. |
| Page.DispatchKeepsMirror | script.js:97-192 | If the cards picture the store, they still picture it after a coherent action. Coherent means: an `init` with distinct ids, an `add` of a new or identical task, an `update` of a stored task that keeps its title, or any `delete`. |
| Page.UpdateOfAbsentTaskHasNoCard | script.js:113-116 | An `update` for an id that is not stored inserts it into the store, but no card appears, so the picture breaks. |
| Page.AddOfShownTaskKeepsOldCard | script.js:107-110 | An `add` for an id that already has a card replaces the stored task but leaves the old card, so a changed `completed` flag is not shown. |
| Page.InitWithRepeatedId | script.js:100-104 | For an `init` with a repeated id, the store holds the last task and the card shows the first. |
| Page.LastUpdateWins | script.js:113-116 | Two `update`s for the same id leave the store and the cards as the later one alone would. |
| Page.PatchTwice | script.js:180-187 | Patching the card for an id twice leaves it as the second patch alone would. |
| Cards.FindSameIds | script.js:181 | Two card lists with the same `data-id`s position by position answer every lookup alike, so patching a card never moves the card a later lookup finds. |
| Page.TaskPage.constructor | script.js:7 | The page starts with an empty store, no cards and the chart at `[0, 0]`. |
| Page.TaskPage.Publish | script.js:128-135 | Publishing a snapshot sets the store and recomputes the chart from it. |
| Page.TaskPage.Dispatch | script.js:97-126 | The imperative subscriber (copy, `clear`/`set`/`delete` with the `forEach` loop, publish, card helper) leaves the store equal to `Reduce`, the cards equal to `CardsAfter` and the chart equal to the summary. Unique card ids, keying by id and the chart invariant are kept. |
| Page.TaskPage.LoadTasks | script.js:101-102 | `clear()` then `set(t.id, t)` for each task in a loop builds exactly `Load` of the tasks. |
| Page.TaskPage.RenderAllTasks | script.js:138-141 | Emptying the container and adding each task's card in a loop gives `RenderAll` of the tasks. |
| Page.TaskPage.AddTaskCard | script.js:143-178 | The guarded append gives `AddCard`. |
| Page.TaskPage.UpdateTaskCard | script.js:180-187 | The lookup and in-place patch give `PatchCard`. |
| Page.TaskPage.RemoveTaskCard | script.js:189-192 | The lookup and detach give `RemoveCard`. |
| Server.Listing | main.py:52-54 | The rows with ids up to `n` are listed in strictly ascending id order, each as the task it stores, and only they are listed. |
| Server.List | main.py:48-54 | `get_tasks` lists every row of the table exactly once, as the task it stores. |
| Server.Create | main.py:56-64 | A create inserts the title under the id after the counter, with `completed` false. The counter advances by one, every existing row keeps its value and lies below the new id, and the answer is `{id, title, completed: false}`. |
| Server.MergeTitle | main.py:75 | An absent or empty title keeps the old one. Any other title replaces it. |
| Server.MergeCompleted | main.py:76 | An absent flag keeps the old one. A present flag replaces it, `false` included. |
| Server.Merge | main.py:75-76 | The row written back: a present flag, or a present non-empty title, replaces the row's own, and every other field stays. `Server.MergeProperties` and `Server.Modify` state the rest. |
| Server.MergeProperties | main.py:75-76 | Applying an update twice equals applying it once. An update with no fields changes nothing. A non-empty title never becomes empty. |
| Server.Modify | main.py:66-83 | The update of a missing id is a 404 that leaves the table unchanged. Otherwise only that row changes, to the merge, and the answer equals the stored row. Ids and counter are unchanged. |
| Server.Remove | main.py:85-95 | The delete of a missing id is a 404 that leaves the table unchanged. Otherwise exactly that row is removed, the rest are unchanged, and the counter does not move back. |
| Server.IdsNeverReused | main.py:60-61 | Over any run of requests, the counter never goes back and every id handed out lies above the old counter. The next create's id was never used, not even for a row since deleted. |
| Server.DeleteThenCreate | main.py:60-61 | Deleting a row and then creating one never brings its id back. |
| Server.TaskApp.constructor | main.py:20-30 | A fresh table is empty with its counter at 0. |
| Server.TaskApp.GetTasks | main.py:48-54 | The listing route returns every row once, with no id repeated, each entry carrying its row's title and flag, and on a valid table exactly the table's ids. |
| Server.TaskApp.CreateTask | main.py:56-64 | The insert changes the table and answers exactly as `Create`, and keeps every id within the counter. |
| Server.TaskApp.UpdateTask | main.py:66-83 | The fetch, 404 check, merge and write-back change the table and answer exactly as `Modify`, and keep every id within the counter. |
| Server.TaskApp.DeleteTask | main.py:85-95 | The delete with its row-count check changes the table and answers exactly as `Remove`, and keeps every id within the counter. |
| Sync.Step | script.js:10-39 | One event with its answer delivered (producers at lines 10-39, wiring at 72-83 and 159-175). The load leaves the table alone. A blank submit changes nothing, and any other one takes the next id, which then has an entry and a card. A toggle of a missing row changes nothing. A delete removes the id from both table and store whatever the server answered. `Sync.StepKeepsSync` and `Sync.ToggleFindsRow` state the rest. |
| Sync.LoadOfListing | script.js:10-14 | Loading the server's listing builds exactly the table's view. |
| Sync.ToggleFindsRow | main.py:70-73 | A checkbox change on a card of a page in sync never meets a 404. |
| Sync.DeliverKeepsSync | script.js:97-126 | A coherent action whose effect on the store equals the server's change to the table keeps the page in sync. |
| Sync.CreateKeepsSync | script.js:16-24 | A create answered and delivered as `add` keeps the page in sync. |
| Sync.ToggleKeepsSync | script.js:31-39 | A checkbox change on a shown card, answered and delivered as `update`, keeps the page in sync. |
| Sync.DeleteKeepsSync | script.js:26-29 | A confirmed delete, delivered as `delete` whatever the answer, keeps the page in sync. |
| Sync.StepKeepsSync | script.js:10-39 | Any enabled event, answered and delivered before the next one, keeps the store equal to the table and the cards picturing it. |
| Sync.RunKeepsSync | script.js:10-39 | A page in sync stays in sync over any run of enabled events handled one at a time. |
| Sync.StartUpSyncs | script.js:194-195 | Whatever the table holds, the fresh page is in sync with it after the initial load. |
| Sync.BuyMilkScenario | script.js:16-24 | With the counter at 6, submitting "Buy milk" stores row 7 and appends exactly one unchecked, unstruck card with id 7. |
| Sync.ResponsesOutOfOrder | script.js:26-39 | Take a toggle then a delete of task 1, handled by the server in that order. Delivered in order, the page stays in sync. If the delete's answer arrives first, the late `update` puts task 1 back into the store with no card, although the table no longer has it. |

## Left out

- The `fetch` calls and JSON decoding (script.js:10-39) are network I/O. Each producer is modelled only as the action it delivers for the server's answer (`Sync.Step`).
- The update producer on a 404 (script.js:31-39) is not modelled. It would dispatch the error body `{detail}` as a task, and the model's `Update` action carries a task. `Sync.Step` leaves the page unchanged on that answer, a branch `Sync.ToggleFindsRow` proves never taken on a page in sync.
- `throttleTime(2000)` and `switchMap` (script.js:72-94, 162-175) are timing and async library semantics. Concurrency appears only as the reordered delivery in `Sync.ResponsesOutOfOrder` and `Page.LastUpdateWins`.
- The clear-all handler (script.js:85-94) is not modelled. It calls `.map` on a JS `Map`, which has no such method, so it throws a TypeError instead of deleting anything.
- Chart.js construction and `tasksChart.update()` (script.js:48-69, 134) are left out because they belong to a foreign widget. Only the `[completed, pending]` pair is kept.
- `confirm()` prompts are modelled as the user's answer: `Sync.ConfirmDelete` is a confirmed click, and a declined one is no event. `document.querySelector` and the `innerHTML` strings (script.js:149-157) are left out as browser APIs; the card sequence stands in for the DOM.
- The event-listener subscriptions each card creates (script.js:159-175) are left out. The model treats each card as able to raise toggle and delete events.
- Title text is not HTML-escaped when script.js builds a card. The model keeps the title as a plain string.
- FastAPI routing, CORS, pydantic validation, `init_db` and the `sqlite3` connection, commit and close calls (main.py:1-32, 50-53) are framework and database plumbing. The table is a map and the AUTOINCREMENT sequence a counter.
- Server.Create: the counter is unbounded. SQLite's failure once the largest rowid has been used (SQLITE_FULL) is not modelled.
- The JSON `completed` value reaches the server as a boolean. Pydantic's coercion of other JSON values and SQLite's storage of booleans as 0/1 are not modelled.
- The browser flips a card's checkbox as soon as it is clicked, and script.js:163 sends that flipped value. In the model a card's checkbox changes only when the `update` answer is delivered. The two differ only when that answer never comes or is a 404, and both of those paths are left out above.
