# TaskFlow task list, modelled in Dafny

TaskFlow is a single-page to-do application. Its `TaskManager` object keeps a
list of task records (id, text, completed flag), the name of the selected
filter (`all`, `pending` or `completed`) and a guard flag, `isProcessing`, that
makes a toggle ignore clicks while another toggle is being handled. New tasks go
to the front of the list; a task is toggled or deleted by id; the completed
tasks can be cleared at once; the list is shown through the selected filter;
and a statistics panel and the filter badges show the total, pending and
completed counts and the rounded completion percentage. Adding, toggling,
deleting and clearing each show a short notification: adding and toggling
quote the task's text cut by `truncate` (a text over 30 characters becomes its
first 30 followed by `...`), deleting shows a fixed text and clearing shows the
number of tasks removed. Selecting a filter shows none.

The project has three modules:

- `TaskList` (`tasklist.dfy`): the task record and everything computed from a
  list as a value: the three filters the application uses, the lookup of the
  first task with an id, the toggled list, the filtered view, the badges, the
  statistics and the percentage, with the lemmas relating them.
- `Messages` (`messages.dfy`): `truncate`, the decimal rendering of a count and
  the notification texts.
- `App` (`manager.dfy`): the class `TaskManager` with the fields `tasks`,
  `currentFilter` and `isProcessing`, whose methods update them in place as the
  application does, each specified against the functions of `TaskList`.

Values the browser supplies are parameters: the id (the application takes it
from the clock), the text of the input field after trimming, the answer to the
confirmation dialog, and the list read back from local storage (`None` when
nothing is stored or it does not parse, which gives an empty list). Each
changing method also takes `saveThrows`: whether saving the list, or one of the
page updates after it, throws. Nothing in the application catches such an
exception (local storage refusing a write when it is full, for one), so the
change already made to the list stays and the rest of the method, its
notification included, is skipped.

Notes on what the proofs showed:

- The percentage is `Math.round(completed / total * 100)`, modelled on exact
  rationals as the nearest integer with halves rounded up. Full completion
  always gives 100 and no completion always gives 0, but the converse of the
  first holds only below 200 tasks: with 199 of 200 tasks completed the panel
  shows 100 %, and from 200 tasks on one pending task always rounds to 100 %
  (`PercentageFullWithPending`), so 200 is exactly where the converse stops
  holding. This is what rounding does, not a defect, so it is stated as a
  property rather than a finding.
- `truncate` leaves a text unchanged not only when it is at most 30
  characters long but also when it is exactly 30 characters followed by
  `...` (`TruncateUnchanged`).
- Delete removes every task with the id, whereas toggle changes only the first
  one with the id; ids come from the clock and are not guaranteed unique.
  `DeleteUnique` states the case of a single task with the id.
- `isProcessing` is raised and lowered within one synchronous call of
  `toggleTask`, and no other method touches it. It stays raised only when saving
  or refreshing throws between the two assignments (there is no `finally`); from
  then on every toggle is ignored until the page is reloaded. That is the only
  way the busy branch of the toggle is reached, and `ToggleTask` states it.

## Model

| member | source | states |
|---|---|---|
| TaskList.Filter | js/app.js:186 | the filtered list is no longer than the list and holds exactly the tasks of the list that pass the predicate |
| TaskList.FilterConcat | js/app.js:220-221 | filtering a concatenation is the concatenation of the filtered parts, so the kept tasks stay in their original order |
| TaskList.FilterUnchanged | js/app.js:200 | a filter returns the list itself if and only if every task passes it |
| TaskList.FilterEmpty | js/app.js:196-197 | a filter returns the empty list if and only if no task passes it |
| TaskList.Partition | js/app.js:272-273 | the pending and the completed tasks together are the list, as a multiset and in number |
| TaskList.FirstIndex | js/app.js:158-162 | an index found holds a task with the id and no earlier task has it; nothing is found if and only if no task has the id |
| TaskList.Toggled | js/app.js:158-169 | toggling keeps the length, every id and every text, and changes the list if and only if some task has the id |
| TaskList.ToggledAt | js/app.js:169 | the first task with the id has its flag flipped and every other task is unchanged |
| TaskList.ToggleTwice | js/app.js:158-169 | toggling the same id twice restores the original list |
| TaskList.ToggleCounts | js/app.js:169 | toggling a pending task adds one to the completed count, toggling a completed task removes one |
| TaskList.DeleteAbsent | js/app.js:186 | deleting an id no task carries leaves the list unchanged |
| TaskList.DeleteUnique | js/app.js:186 | when exactly one task carries the id, deleting removes just that task and keeps the others in order |
| TaskList.ClearNoneCompleted | js/app.js:196-200 | clearing changes nothing when no task is completed |
| TaskList.FilteredView | js/app.js:218-224 | the `pending` view is the pending filter of the list and the `completed` view its completed filter, so they hold exactly those tasks in list order with repeats kept; any other filter gives the whole list; no view invents a task |
| TaskList.ViewsPartition | js/app.js:218-224 | the lengths of the `pending` and `completed` views add up to the length of the `all` view |
| TaskList.FilterBadges | js/app.js:271-278 | each filter badge equals the number of tasks its filter shows, including pending computed as total minus completed |
| TaskList.Percentage | js/app.js:229 | 0 for an empty list, otherwise the nearest integer to completed·100/total with halves rounded up |
| TaskList.PercentageBounds | js/app.js:229 | the percentage is at most 100, is 0 when nothing is completed and 100 when everything is |
| TaskList.PercentageMonotone | js/app.js:229 | more completed tasks never give a lower percentage |
| TaskList.PercentageFullOnlyIfAllDone | js/app.js:229 | below 200 tasks, a percentage of 100 means every task is completed |
| TaskList.PercentageFullWithPending | js/app.js:229 | from 200 tasks on, all but one completed already gives 100 |
| TaskList.Statistics | js/app.js:226-233 | total is the list length, completed and pending are the sizes of the two filters, they add up to the total, and the percentage is the rounded percentage of completed over total, lies in 0..100, is 0 with nothing completed and 100 with nothing pending |
| TaskList.AddStats | js/app.js:131-139 | adding a pending task adds one to the total and to the pending count and leaves the completed count |
| TaskList.ClearStats | js/app.js:200 | after clearing, no task is completed and the total equals the former pending count |
| Messages.Truncate | js/app.js:297-299 | a text of at most `length` characters comes back unchanged; a longer one becomes its first `length` characters followed by `...`, so the result always begins with the kept part of the text; never longer than `length + 3` |
| Messages.TruncateUnchanged | js/app.js:297-299 | truncating returns the text itself if and only if it is at most `length` long or is `length` characters followed by `...` |
| Messages.NatToString | js/app.js:205 | the count is written as at least one decimal digit without a leading zero |
| Messages.NatToStringRoundTrip | js/app.js:205 | reading the written digits back gives the count |
| Messages.AddedToast | js/app.js:149 | titled "Tarea agregada"; the description is the text between quotes followed by " agregada" when the text is at most 30 characters, and otherwise its first 30 characters followed by `...`, quoted the same way; the quoted part is always the truncated text and the description is at most 44 characters |
| Messages.ToggledToast | js/app.js:178-179 | titled "Tarea completada" exactly when the task is now completed and "Tarea pendiente" exactly when it is not; the description is the text itself when it is at most 30 characters, and otherwise its first 30 characters followed by `...` |
| Messages.ClearedToast | js/app.js:205 | titled "Tareas limpiadas"; the description is the count followed by "tareas eliminadas" above one and by "tarea eliminada" otherwise |
| App.TaskManager.constructor | js/app.js:2-5 | starts with the stored list, or an empty one when none could be loaded, the `all` filter and the guard lowered |
| App.TaskManager.AddTask | js/app.js:127-149 | an empty text changes nothing; otherwise a pending task with the given id and text is put first and the old list follows in order; the "added" notification appears unless saving throws |
| App.TaskManager.ToggleTask | js/app.js:152-182 | while the guard is raised nothing changes; otherwise the list becomes the toggled list; when the id was found the notification appears and the guard is lowered again, unless saving throws, in which case the guard stays raised |
| App.TaskManager.DeleteTask | js/app.js:184-193 | when confirmed, exactly the tasks with a different id remain and the notification appears unless saving throws; otherwise nothing changes |
| App.TaskManager.ClearCompleted | js/app.js:195-207 | when confirmed, exactly the pending tasks remain (also when none was completed); the notification gives the count and appears only when something was cleared and saving did not throw |
| App.TaskManager.SetFilter | js/app.js:209-216 | the selected filter becomes the given one and the list is unchanged |
| App.TaskManager.FilteredTasks | js/app.js:218-224 | shows exactly the tasks that pass the selected filter, in list order and with repeats kept: the pending filter, the completed filter, or the whole list for any other name |
| App.TaskManager.CurrentStats | js/app.js:226-233 | the total is the list length, pending and completed add up to it, completed counts the completed tasks, and the percentage is the rounded percentage of completed over total, at most 100 |
| App.TaskManager.CurrentBadges | js/app.js:271-278 | the badges show the same total, pending and completed counts as the statistics panel |

## Left out

- Rendering: element lookup, the HTML of the list, `escapeHtml`, the empty-state
  and button visibility, the progress bar width; they are DOM work.
- The display of the notifications (and their 3-second timer) and of the
  confirmation dialogs; the model returns each notification's text and takes the
  dialog's answer as a parameter, but the dialogs' own question texts are not modelled.
- Persistence: `loadTasks` and `saveTasks` go through local storage and JSON;
  the model only takes the loaded list, or its absence, as the constructor's
  parameter, and whether saving throws as a method parameter. What is written
  to storage is not modelled.
- Exceptions thrown while saving or rendering are modelled only by their
  effect on the fields and on the notification; their propagation to the event
  handler, and the input field that `addTask` has already cleared, are not.
  An exception inside `toggleTask` leaves `isProcessing` raised, and every later
  toggle is then ignored until the page is reloaded.
- `formatDate` and the creation timestamp of a task: they depend on the clock and
  on locale formatting.
- Event binding, the enabling of the add button while typing, and the
  service-worker registration: browser glue. The service worker (`sw.js`) is not
  part of this model: it is cache and network plumbing.
- Trimming of the input text: the text is taken already trimmed.
- TaskList.Percentage: computed on exact rationals; the double-precision rounding
  of `completed / total * 100` before `Math.round` is not reproduced. The two
  differ only on exact halves that the quotient does not represent exactly: for
  23 of 40 tasks the product falls just below 57.5 in double precision, so the
  application shows 57 where the model gives 58.
- Messages.Truncate: lengths are counted in Unicode characters, not in the
  UTF-16 code units JavaScript counts, so a surrogate pair is never split.
- Logging to the console.
