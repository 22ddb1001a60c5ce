# Todo list: task store and view controller

This project models the two pieces of logic in a small todo-list application and proves properties about them.

- **The backend task store** (`backend/app.py`). It is an in-memory list of tasks `{id, text, done}` plus an id counter. Four operations change it: create, mark done, rename and delete. Each answers with status 201, 200, 400 or 404. In the model this is `TaskStore.Store`, a class with a `seq<Task>` field and a `nat` counter. Its invariant `StoreInvariant` says that ids increase along the list (so they never repeat), that no id is larger than the counter, and that every stored text is non-empty and has no surrounding whitespace.
- **The frontend view controller** (`frontend/script.js`). It holds the cached task list, the filter (`all`/`done`/`undone`) and the page number. From these it derives the filtered list, the three-task page slice, the count line and the pagination buttons. It also runs the local checks that decide whether a request goes to the server: empty input, an unchanged edit, and a duplicate suggestion. In the model this is `TaskView`. Its pure functions take the state as arguments. The class `TaskView.Controller` has the three globals as fields.

Two modules are shared:

- `Seqs` is a filter and a first-match search. The Python list comprehension and JavaScript's `filter`/`find` both map onto these.
- `Text` is trimming and lower-casing over ASCII.

Request outcomes that come from the network are parameters of the controller's methods:

- whether the server accepted the request (`postOk`, `patchOk`, `putOk`, `deleteOk`);
- the list returned by the re-fetch that follows (`refetched`, `None` when the fetch failed);
- the user's answers to dialogs (`newText`, `confirmed`).

The controller methods return the request they would send, or `None` when no request is sent.

Behaviour of the code worth noting:

- The edit check sends any non-empty dialog answer whose trimmed text differs from the current text. A blank but non-empty answer (`"  "`) gets through and is sent as `""`, and the server then answers 400. Only the dialog's own input validator stops this (frontend/script.js:324-331, backend/app.py:91-93; `TaskView.EditRequestChecked`).
- Marking a task done is idempotent on the server as far as the model goes: a second mark of the same id leaves every task's id, text and done flag as the first mark left them; only `completed_at` is set again (backend/app.py:69-72; `TaskStore.MarkedDoneIdempotent`).
- After a re-fetch, nothing brings the page number back into range. A list that shrinks to fewer pages than the current page, but not to nothing, shows an empty page, and when only one page is left it shows no pagination controls either (frontend/script.js:350-358 and 185-188; `TaskView.StalePageAfterShrink`).

## Model

| member | source | states |
|---|---|---|
| Seqs.Filter | backend/app.py:115 | The result holds exactly the elements that satisfy the predicate. It is no longer than the input. It has the input's length iff every element satisfies the predicate, and then it is the input itself. |
| Seqs.FilterConcat | frontend/script.js:136-138 | Filtering distributes over concatenation, so the kept elements keep their original order. |
| Seqs.FilterPartition | frontend/script.js:161-162 | Filtering by a predicate and by its negation gives lengths that add up to the input's length. |
| Seqs.FindFirst | backend/app.py:69-70 | Returns the index of the first element that satisfies the predicate. Returns None iff no element does. |
| Text.TrimStart | backend/app.py:44 | The result is empty or starts with a non-space. It is empty iff the input is all whitespace. |
| Text.TrimStartShape | backend/app.py:44 | What `TrimStart` keeps is a suffix of the input, and everything it drops is whitespace. |
| Text.TrimStartSkips | frontend/script.js:331 | Leading whitespace does not change what `TrimStart` leaves. |
| Text.TrimEnd | backend/app.py:44 | The result is empty or keeps the input's first character and ends with a non-space. It is empty iff the input is all whitespace. |
| Text.TrimEndShape | backend/app.py:44 | What `TrimEnd` keeps is a prefix of the input, and everything it drops is whitespace. |
| Text.TrimEndKeeps | backend/app.py:44 | A text that ends with a non-space is left unchanged by `TrimEnd`. |
| Text.TrimEndSkips | frontend/script.js:331 | Trailing whitespace does not change what `TrimEnd` leaves. |
| Text.Trim | frontend/script.js:367 | The result is empty or starts and ends with a non-space. It is empty iff the input is all whitespace. |
| Text.TrimIdempotent | backend/app.py:44 | Trimming twice gives the same result as trimming once. |
| Text.TrimAround | frontend/script.js:331 | Trimming a text that starts and ends with non-spaces, with whitespace wrapped around it, gives back exactly that text. |
| Text.Lower | frontend/script.js:112 | Same length as the input. Each character is lower-cased (ASCII). |
| TaskStore.StoredTextIsTrimmed | backend/app.py:44-46 | A text passes the store's check unchanged iff it is non-empty and has no whitespace at either end. |
| TaskStore.CheckText | backend/app.py:41-46 | A missing text gives 400 "missing". An all-whitespace text gives 400 "empty". Otherwise the result is the stripped text, which is stored text. |
| TaskStore.StoreInvariant | backend/app.py:13-16 | The store invariant (increasing ids, each between 1 and the counter, stored texts) implies that ids are unique. |
| TaskStore.MarkedDone | backend/app.py:69-72 | The list after marking done has the same length, ids and texts. With no task of that id it is unchanged; otherwise the first task with the id is done and every other task is as before. |
| TaskStore.Edited | backend/app.py:95-97 | The list after a rename has the same length, ids and done flags. With no task of that id it is unchanged; otherwise the first task with the id carries the new text and every other task is as before. |
| TaskStore.Removed | backend/app.py:115 | The list after deleting holds exactly the tasks of the old list whose id differs. It equals the old list iff no task had the id. |
| TaskStore.MarkedDoneAt | backend/app.py:69-72 | With unique ids, marking done sets `done` on the task with that id only. The task keeps its id and text, and every other task is unchanged. |
| TaskStore.MarkedDoneIdempotent | backend/app.py:69-72 | Marking the same id done twice gives the same list as marking it once. |
| TaskStore.EditedAt | backend/app.py:95-97 | With unique ids, a rename replaces the text of the task with that id only. The task keeps its `done` flag, and every other task is unchanged. |
| TaskStore.RemovedIncreasing | backend/app.py:115 | Deleting keeps the ids increasing along the list. |
| TaskStore.RemovedKeepsInvariant | backend/app.py:113-115 | Deleting keeps the whole store invariant: increasing ids, each between 1 and the counter, stored texts. |
| TaskStore.RemovedCount | backend/app.py:114-117 | With unique ids, deleting removes exactly one task when the id is present and none when it is absent. |
| TaskStore.Store.constructor | backend/app.py:10-11 | The store starts with no tasks and a counter of 0, and the invariant holds. |
| TaskStore.Store.NextId | backend/app.py:13-16 | The counter goes up by exactly 1 and the new value is returned. That value is larger than every id in the list. |
| TaskStore.Store.Append | backend/app.py:48-54 | Appends exactly one task, not done, with the given text and an id one above the old counter. That id is larger than every id already in the list, and the invariant is kept. |
| TaskStore.Store.AddTask | backend/app.py:36-60 | A rejected text gives 400 and leaves the list and counter unchanged. Otherwise the response is 201 and exactly one task is appended: the fresh id, the stripped text, not done. The invariant is kept. |
| TaskStore.Store.MarkDone | backend/app.py:65-78 | An unknown id gives 404 and leaves the store unchanged. Otherwise the first task with that id becomes done and is returned with 200. The invariant is kept. |
| TaskStore.Store.EditTask | backend/app.py:83-104 | The text is checked before the id is looked up, so a bad text gives 400 even for an unknown id. An unknown id gives 404 and leaves the store unchanged. Otherwise only that task's text changes. |
| TaskStore.Store.DeleteTask | backend/app.py:109-118 | Every task with the id is removed and the rest keep their order. The response is 404 exactly when there was no such task, and then the store is unchanged. |
| TaskView.FilteredTasks | frontend/script.js:133-142 | Filter `done` keeps exactly the done tasks and `undone` exactly the pending ones. Any other filter value keeps the whole list. |
| TaskView.FilteredTasksConcat | frontend/script.js:133-142 | The filtered list keeps the cached order: filtering a concatenation gives the concatenation of the filtered parts. |
| TaskView.DoneAndPendingMakeTotal | frontend/script.js:160-162 | The done count plus the pending count equals the total. |
| TaskView.PageCount | frontend/script.js:182 | The page count is ceil(n/3): r·3 ≥ n, and (r−1)·3 < n when r > 0. It is zero iff n is zero. |
| TaskView.ClampIndex | frontend/script.js:242 | Maps a slice index the way JavaScript does: an index within the list is itself, an index past the end is the length, a negative index counts back from the end and stops at 0, and the result is never past the end. |
| TaskView.JsSlice | frontend/script.js:242 | For 0 ≤ start ≤ end, the result is `s[start..min(end,|s|)]`, or empty when start ≥ |s|. Its elements come from `s`. |
| TaskView.PageItems | frontend/script.js:240-242 | A page holds at most 3 tasks, all from the filtered list. It is empty iff the page is beyond the page count. Inside the range it is the slice starting at (page−1)·3. |
| TaskView.PagesPrefix | frontend/script.js:240-242 | Pages 1..k laid end to end are the first min(3k, n) filtered tasks. |
| TaskView.PagesCoverList | frontend/script.js:240-242 | Laying all pages end to end gives back the filtered list, so no task is skipped or repeated. |
| TaskView.EmptyMessage | frontend/script.js:249-258 | "No completed tasks yet!" iff the filter is `done`, "No pending tasks!" iff it is `undone`, and "No tasks yet!" for every other filter value. |
| TaskView.TaskDisplay | frontend/script.js:238-267 | The empty state appears iff nothing passes the filter, and its message is the one for the current filter. Otherwise the shown tasks are exactly the current page's slice of the filtered list: at most 3, and none at all iff the page is beyond the page count. |
| TaskView.StalePageAfterShrink | frontend/script.js:350-358 | A list of 1 to 3 tasks seen on page 2 shows an empty page and has a single page, so no controls. |
| TaskView.TaskCount | frontend/script.js:158-174 | The shown count is the filtered count. The noun is "completed task" iff the filter is `done`, "pending task" iff it is `undone`, and "task" otherwise. The suffix is "s" iff that count is not 1. `done`/`undone` report that count out of the total. Any other filter reports the number of done tasks and the number of pending tasks, which add up to the total. |
| TaskView.GeneratePagination | frontend/script.js:180-224 | No buttons when there is at most one page. Otherwise: prev, then pages 1..totalPages with exactly the current page active, then next. Prev is disabled iff page = 1 and next iff page = totalPages. |
| TaskView.AddRequest | frontend/script.js:365-373 | No request iff the input is all whitespace. Otherwise the trimmed input is posted, and it is stored text. |
| TaskView.AddRequestAccepted | frontend/script.js:367-381 | The store's text check accepts what `addTask` posts, unchanged. |
| TaskView.EditRequest | frontend/script.js:331-336 | A request is sent iff the dialog returned a non-empty text whose trim differs from the current text. The request carries that trimmed text. |
| TaskView.UnchangedEditSendsNothing | frontend/script.js:331 | Re-entering a stored text, even with blanks around it, sends no request. |
| TaskView.EditRequestChecked | frontend/script.js:324-336 | The store accepts what `editTask` sends unless the text is blank. A blank text would be rejected with 400 "empty". |
| TaskView.FindDuplicate | frontend/script.js:111-113 | Finds a cached task whose lower-cased, trimmed text equals the suggestion's. Finds none iff no such task exists. |
| TaskView.CaseOnlyDifferenceIsDuplicate | frontend/script.js:111-125 | A suggestion that differs from a cached task only in letter case is a duplicate. |
| TaskView.Controller.constructor | frontend/script.js:4-6 | Starts with no tasks, filter "all" and page 1. |
| TaskView.Controller.SetFilter | frontend/script.js:145-147 | Sets the filter, resets the page to 1 and keeps the cache. |
| TaskView.Controller.ChangePage | frontend/script.js:227-235 | The page becomes p iff 1 ≤ p ≤ ceil(filtered/3). Otherwise nothing changes. |
| TaskView.Controller.FetchTasks | frontend/script.js:350-358 | A successful fetch replaces the cache wholesale and a failed one keeps it. Filter and page are left alone, including a page that is now out of range. |
| TaskView.Controller.AddTask | frontend/script.js:365-393 | Sends the add request. After an accepted post, the cache follows the re-fetch and the view is on "all", page 1, even when the re-fetch failed. Otherwise nothing changes. |
| TaskView.Controller.AddSuggestion | frontend/script.js:109-130 | A duplicate suggestion sends nothing and changes nothing. Any other suggestion behaves as `addTask` on it. |
| TaskView.Controller.EditTask | frontend/script.js:313-347 | Sends the edit request. The cache changes only through a re-fetch after an accepted patch. Filter and page are kept. |
| TaskView.Controller.MarkDone | frontend/script.js:401-413 | Always sends the put. The cache changes only through a re-fetch after an accepted put. |
| TaskView.Controller.DeleteTask | frontend/script.js:415-433 | Sends a delete iff the user confirmed. The cache changes only through a re-fetch after an accepted delete. |
| TaskView.Controller.Shown | frontend/script.js:238-242 | The tasks shown for the current state never exceed one page of 3. |

## Left out

- The Flask routes are not modelled: routing, CORS setup, OPTIONS preflight answers (204), `get_tasks` (it only serialises the list), `/health`, and the generic 500 handlers. They are framework plumbing.
- Some request bodies fall into the 500 handler at backend/app.py:61-62: a `text` that is not a string, a JSON list such as `["text"]` (it passes the `'text' in data` test and fails at `data['text']`), and depending on the Flask version a request with no JSON body at all (`request.json` raises). The model's body is `Option<string>`, so these cases do not exist in it. `None` stands only for a JSON body that is empty or has no "text" key, which gets the 400 at backend/app.py:41-42. This is Python dynamic typing.
- Requests are modelled as handled one at a time. `app.run` at backend/app.py:134 serves each request on its own thread, and the handlers share `tasks` and `task_counter` with no lock. Two effects of that are not captured. First, two creates handled at once can append their tasks out of id order, because `get_next_id()` at line 49 and `tasks.append` at line 54 are separate steps; that breaks the increasing-ids part of `TaskStore.StoreInvariant`. Second, a create that lands between `len(tasks)` at line 114 and the comprehension at line 115 makes a successful delete answer 404, unlike what `TaskStore.Store.DeleteTask` states.
- The `created_at`, `completed_at` and `updated_at` timestamps are omitted. They are wall-clock floats.
- Task records are dicts that the source mutates in place inside the list. The model treats them as values and replaces a list element. No dict is aliased outside the list, so nothing observable is lost.
- Text.Trim and Text.Lower work on ASCII only. Python's `strip`, JavaScript's `trim` and `toLowerCase` use larger Unicode sets. The model uses one trim for both Python and JavaScript, although even on ASCII they differ: Python's `strip` also removes the separators \x1c–\x1f and JavaScript's `trim` does not. TaskView.AddRequestAccepted and TaskView.EditRequestChecked hold under this shared trim only; with the two real trims, a text such as "\x1f" is posted by the frontend and refused with 400 by the backend.
- All dialogs, toasts and spinners are not modelled (SweetAlert calls, `showLoading`, `showSuccess`, `showError`, `showConfirmation`). Only their answers enter, as parameters. The clearing and focusing of the input field is DOM state and is also left out.
- DOM building and HTML templating are not modelled. This includes the quote escaping in the edit buttons' `onclick` attribute, and the empty-state message is modelled only as its string. TaskView.TaskCount returns the parts of the count line rather than the formatted text, because number-to-decimal rendering is presentation.
- `fetch`, async sequencing, JSON parsing and the `response.data || response` fallback are not modelled. The model receives the fetched list as a parameter. The API base address and its mismatch with the backend's `/tasks` path are deployment configuration.
- The random shuffle in `loadRandomSuggestions` and the suggestion pool are left out. The shuffle uses `Math.random` and is nondeterministic, so only the duplicate check in `addSuggestion` is modelled.
