# Quick Task Tracker — the task store

Quick Task Tracker is a single-window desktop to-do list. The window keeps
an in-memory list of tasks. Each task has a title, a description and a
completion flag. The user can add a task from two input fields, remove the
selected task, and mark the selected task as completed. This project models
that store and proves what its operations do. It leaves out the window
layout.

The model is in three files:

- `tasks.dfy`, module `Tasks`: the `Task` class. `title` and `description`
  are `const`, because the source sets them only in the constructor.
  `completed` is a `var` that only `MarkAsCompleted` writes. The getters
  `getTitle`, `getDescription` and `isCompleted` read these fields directly.
  `TaskView` is the value of a task at one moment. `StatusText` is the
  Completed/Pending rule. `TaskString` is `toString`.
- `task_list.dfy`, module `TaskList`: the store as a sequence of
  `TaskView` values, with the three message strings and the specification
  functions of the three intents. `AddResult` is the add intent, including
  its input check. `RemovedAt` deletes a position. `MarkedAt` marks one
  position. The module proves lemmas about these functions: an inverse for
  removal, idempotence for marking, and what a series of adds produces.
- `tracker.dfy`, module `Tracker`: the class `QuickTaskTracker` with the
  fields `tasks`, `listModel`, `titleField` and `descriptionField`, and its
  three store methods. `tasks` and `listModel` hold references to the same
  `Task` objects. `Valid()` states this lockstep as `listModel == tasks`,
  so marking `tasks[i]` is also visible through `listModel[i]`. `Valid()`
  also says that no object is stored twice and that every stored task has
  both fields non-empty. Every method ties `Contents()`, the tasks as
  values, to a `TaskList` function of the old contents.

Inputs are parameters or fields. The text of the two input fields is held
in `titleField` and `descriptionField`, which `AddTask` reads and clears.
The selected row is the `selectedIndex` parameter, with `-1` meaning that
no row is selected. A notification dialog is modelled as the returned
`Outcome`: either `Done` or `Notify(message)` with the exact message text.

## Model

| member | source | states |
|---|---|---|
| Tasks.StatusText | QuickTaskTracker.java:48 | the status text is "Completed" exactly when the flag is set, and "Pending" exactly when it is not |
| Tasks.TaskStringShowsTask | QuickTaskTracker.java:35-37 | the string form begins with "Title: " and the title, and its last nine characters spell "Completed" exactly when the task is completed |
| Tasks.TaskString | QuickTaskTracker.java:35-37 | the result is exactly "Title: " + title + " \| Description: " + description + " \| Status: " + status, each piece at its stated position, with the status word of StatusText |
| Tasks.Task.ToString | QuickTaskTracker.java:35-37 | the object's string form is TaskString of its current value, "Title: " + title + " \| Description: " + description + " \| Status: " + status; it starts with "Title: " and the title and ends in "Completed" exactly when the task is completed |
| Tasks.Task.View | QuickTaskTracker.java:18-28 | the value carries what getTitle, getDescription and isCompleted return: the task's title, description and flag |
| TaskList.Accepts | QuickTaskTracker.java:170 | the input is accepted exactly when neither text has length 0 (Java's isEmpty), with no trimming |
| Tasks.Task.constructor | QuickTaskTracker.java:12-16 | a new task has the given title and description and is not completed |
| Tasks.Task.MarkAsCompleted | QuickTaskTracker.java:30-32 | afterwards the task is completed, and its title and description are unchanged; the new state does not depend on the old flag, so a second call changes nothing |
| TaskList.AddResult | QuickTaskTracker.java:170-175 | an empty title or an empty description leaves the list as it was; otherwise exactly one uncompleted task with those texts is appended and every earlier task stays in place |
| TaskList.RemovedAt | QuickTaskTracker.java:185-186 | the list is one shorter, tasks before position i are unchanged, and each task after i moves down one place |
| TaskList.MarkedAt | QuickTaskTracker.java:196 | the length is unchanged, the task at i is completed with the same title and description, and every other task is unchanged |
| TaskList.RemovedAtInverse | QuickTaskTracker.java:185 | putting the removed task back at position i restores the old list, so removal deletes exactly that one task and keeps the order of the rest |
| TaskList.MarkedAtIdempotent | QuickTaskTracker.java:196 | marking the same position twice yields the same list as marking it once |
| TaskList.AddAllAppendsAccepted | QuickTaskTracker.java:166-179 | a series of add intents appends one task for each entry that passes the input check, in submission order, after the existing tasks |
| TaskList.AcceptedAll | QuickTaskTracker.java:170-173 | when every entry passes the check, each entry yields exactly one uncompleted task, at its own position |
| TaskList.AddAllFromEmpty | QuickTaskTracker.java:166-179 | n accepted adds on an empty list give a list of n uncompleted tasks in submission order |
| TaskList.AddAllKeepsFilled | QuickTaskTracker.java:170-174 | add intents only ever store tasks whose title and description are both non-empty |
| Tracker.QuickTaskTracker.constructor | QuickTaskTracker.java:98-125 | the new text fields start empty and the new list model starts empty, as does tasks (initialised at line 63); the invariant holds |
| Tracker.QuickTaskTracker.AddTask | QuickTaskTracker.java:166-179 | with a field empty: the add message is returned and the tasks and fields are unchanged; otherwise: one fresh task is appended to both lists, earlier tasks are unchanged, and both fields become ""; the lockstep invariant is kept in both cases |
| Tracker.QuickTaskTracker.RemoveTask | QuickTaskTracker.java:182-190 | with no selection: the remove message is returned and tasks is unchanged; otherwise tasks becomes tasks[..i] + tasks[i+1..], listModel follows it, and the contents are RemovedAt of the old contents |
| Tracker.QuickTaskTracker.MarkTaskAsCompleted | QuickTaskTracker.java:193-201 | with no selection: the completion message is returned and nothing changes; otherwise only the selected task object is written, the contents are MarkedAt of the old contents, and listModel shows the flag through the shared object |
| Tracker.SampleAdds | QuickTaskTracker.java:166-179 | two adds with both fields filled on a new tracker give exactly those two uncompleted tasks, in order, as new objects, with no notification |
| Tracker.Walkthrough | QuickTaskTracker.java:166-201 | two adds, marking row 0, removing row 1 and a remove with no selection leave exactly the first task, completed, and give the expected outcomes |

## Left out

- The Swing construction in the `QuickTaskTracker` constructor (lines 69-164) is not modelled. This covers panels, colours, fonts, borders, scroll panes and listener wiring. It is layout with no stated behaviour.
- `JOptionPane.showMessageDialog` is not modelled as a dialog. Each call becomes the returned `Notify(message)` outcome.
- `taskList.repaint()` is not modelled. It is a rendering side effect.
- The renderer's selection and background colours are not modelled, and neither is its HTML markup. Only its Completed/Pending rule is modelled, as `StatusText`.
- How `JList.getSelectedIndex` is computed is not modelled. The selection is a parameter.
- How the text fields are edited is not modelled. Their text is the fields `titleField` and `descriptionField`.
- `main`, the event-dispatch thread and the window lifecycle are not modelled. They are process and UI plumbing.
- Tracker.QuickTaskTracker.RemoveTask: a selected index outside `-1 .. |tasks| - 1` would throw in the source. The model excludes it by a precondition, because the index always comes from the list that mirrors `tasks`.
- Tracker.QuickTaskTracker.MarkTaskAsCompleted: out-of-range indexes are excluded by a precondition, for the same reason as in `RemoveTask`.
- `addTask` returns nothing, so `AddTask` returns only the outcome of the intent.
- The lemmas about a series of adds are stated on the value-level function `AddAll`, not on repeated calls of `AddTask`. `AddTask`'s contract equates each call with `AddResult`, of which `AddAll` is the repetition.
