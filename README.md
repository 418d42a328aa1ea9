# To-do list widget: the `App` state machine

This project models the task-list state machine of the `App` component in
`src/App.js`. The component declares seven `useState` hooks and one DOM
ref. The model keeps six of the hooks; `currentDate` and the ref are left
out (see "Left out"). The six are:

- `todoList`: a list of entries `{task, completed}`;
- `currentTask`: the staged input text;
- `showModal`: whether the confirmation modal is open;
- `completedTask`: the title the completion modal names, or null;
- `showMessage`: the error notice, or null;
- `showClearAll`: whether the "Clear All Tasks" button is shown.

Seven handlers change that state. `addTask`, `deleteTask` and `completeTask`
work on the list. `closeModal`, `clearAll`, `confirmClearAll` and
`cancelClearAll` drive the modal and the bulk clear.

The project has three modules:

- `Text` (`text.dfy`) holds JavaScript's white-space set and `trim()`.
  `Trim`'s contract says it returns "" exactly on blank strings. The add
  handler evaluates its guard `trim() !== ""` through the method
  `TrimmedIsNonEmpty`, whose contract states the same fact about one call.
- `Tasks` (`tasks.dfy`) holds the entry datatype and the three list
  expressions the handlers are built from: `filter` (`RemoveTitle`), `map`
  (`ToggleTitle`) and `find` (`Find`). Each is a function, and lemmas state
  its properties. `ToggleTitle` is written as a sequence comprehension, the
  same element-by-element shape as `map`. The fourth list expression, the spread-append of the add
  handler (src/App.js:42), is written inline in `AddTask` as
  `todoList + [Task(currentTask, false)]`.
- `App` (`app.dfy`) holds the class `TodoApp` with the six state fields and
  one method per handler. Each method is a single atomic step that reads the
  state as it was when the handler started, as the closures in the source do.
  The module also has `ModalView`, the modal's content as a function of the
  state. Two client methods, `BuyMilkScenario` and `ClearAllScenario`, walk
  through the usual click sequences.

The thresholds are kept exactly as the code writes them:

- After a successful add, the button shows when `length + 1 >= 2`.
- After a delete, it shows when the length before the delete is greater
  than 4, whatever was removed.

Add and delete use different thresholds, and delete tests the length before
the removal, not after. So `showClearAll` is not a function of the current
list length: deleting one of three entries hides the button, though adding a
second entry shows it.

`deleteTask` removes every entry with the title (`filter`), not only the
first. `completeTask` toggles every entry with the title (`map`). The
completion modal opens only when the FIRST such entry was not completed
before the call (`find`). The model does the same.

`completedTask ? … : …` in the modal uses JavaScript truthiness, where both
null and "" are falsy. `ModalView` models that with `Truthy`. The class
invariant `Valid()` says that no entry and no `completedTask` is blank, and
`CompletedTaskIsTruthy` shows that in valid states a set `completedTask` is
never mistaken for the clear-all case.

## Model

| member | source | states |
|---|---|---|
| `Text.TrimStart` | src/App.js:40 | the result is the suffix of the input that starts at its first non-white character; every dropped character is ECMAScript white space |
| `Text.TrimEnd` | src/App.js:40 | the result is the prefix of the input that ends at its last non-white character; every dropped character is white space |
| `Text.TrimBothEnds` | src/App.js:40 | cutting the leading white space and then the trailing white space leaves a slice of the string with only white space around it and non-white ends; the slice is empty exactly when the string is blank |
| `Text.Trim` | src/App.js:40 | the result is a slice of `s` with only white space before and after it and a non-white character at each of its ends; it is "" exactly when every character of `s` is white space |
| `Text.TrimmedIsNonEmpty` | src/App.js:40 | the add guard `trim() !== ""` holds exactly when the input is not blank |
| `Tasks.RemoveTitle` | src/App.js:61-65 | no entry of the result carries the deleted title; every other entry keeps its multiplicity; with no match the list is returned unchanged |
| `Tasks.RemoveTitleConcat` | src/App.js:62-64 | the filter distributes over concatenation, so kept entries stay in their original order |
| `Tasks.RemoveTitleSingle` | src/App.js:62-64 | one entry survives exactly when its title differs from the deleted one |
| `Tasks.RemoveTitleTwice` | src/App.js:59-65 | a second delete of the same title leaves the list as the first one left it |
| `Tasks.ToggleTitle` | src/App.js:77-83 | same length; every entry with the title keeps its title and has its flag flipped; every other entry is untouched; with no match the list is unchanged |
| `Tasks.ToggleTitleTwice` | src/App.js:77-83 | toggling the same title twice restores the list |
| `Tasks.Find` | src/App.js:72 | the result is absent exactly when no entry carries the title; otherwise it is the entry at the first index with that title |
| `Tasks.FirstMatchUnique` | src/App.js:72 | the first index with a given title is unique |
| `Tasks.FindAfterToggle` | src/App.js:72-88 | after a toggle, the first entry with the title is the old first entry with its flag flipped |
| `App.ModalView` | src/App.js:175-197 | nothing when the modal is hidden; the clear-all prompt exactly when the modal is open and `completedTask` is falsy; otherwise the completion notice for `completedTask`, saying "Completed" exactly when its first entry is completed |
| `App.AppendKeepsTitlesVisible` | src/App.js:40-42 | appending an entry whose title is not blank to a list without blank titles gives a list without blank titles |
| `App.RemoveKeepsTitlesVisible` | src/App.js:61-65 | the filter of the delete handler keeps a list free of blank titles |
| `App.ToggleKeepsTitlesVisible` | src/App.js:77-83 | the map of the complete handler keeps a list free of blank titles |
| `App.FoundTitleVisible` | src/App.js:72 | a title that `find` locates in a list without blank titles is not blank |
| `App.CompletionNoticeShown` | src/App.js:84-88 | when the first entry with the title was not completed, the modal opened for that title after the toggle reads "Completed" |
| `App.TodoApp.CompletedTaskIsTruthy` | src/App.js:179-190 | in a valid state a set `completedTask` is truthy |
| `App.TodoApp.constructor` | src/App.js:18-24 | the initial state: empty list, empty input, modal hidden, no completed task, no notice, button hidden |
| `App.TodoApp.SetCurrentTask` | src/App.js:125-127 | only the staged input changes |
| `App.TodoApp.AddTask` | src/App.js:39-57 | blank input: list, input and button flag unchanged, error notice set. Otherwise: exactly one uncompleted entry with the input appended after the unchanged old entries, input and notice cleared, button shown exactly when the new length is at least 2. The modal is never touched |
| `App.TodoApp.DeleteTask` | src/App.js:59-68 | the new list is the old list without the entries carrying the title; the button flag is "old length > 4"; nothing else changes |
| `App.TodoApp.CompleteTask` | src/App.js:70-90 | the new list is the old list with the title toggled (unchanged if nothing matches); when the first matching entry was not completed, `completedTask` becomes the title, the modal opens and shows "Completed"; otherwise the modal state is unchanged |
| `App.TodoApp.CloseModal` | src/App.js:92-95 | the modal is hidden and `completedTask` cleared; nothing else changes |
| `App.TodoApp.ClearAll` | src/App.js:97-99 | only `showModal` changes, to true; with no completed task it shows the clear-all prompt |
| `App.TodoApp.ConfirmClearAll` | src/App.js:101-105 | the list is empty and both the button and the modal are hidden; the input, notice and `completedTask` are unchanged |
| `App.TodoApp.CancelClearAll` | src/App.js:107-109 | only `showModal` changes, to false |

## Left out

- `getFormattedDate` (src/App.js:7-15) and the `currentDate` field: they read the clock and format the date for the locale.
- The daily `setInterval` effect and its `clearInterval` cleanup (src/App.js:28-37): a timer, and the only writer of `currentDate`.
- The `inputTask` ref (src/App.js:25) and its write `inputTask.current.value = ""` (src/App.js:44): a DOM side effect. The model only resets the `currentTask` state.
- The `onKeyDown` wiring (src/App.js:121-123): it calls the same `addTask`, so the model has nothing new to add for it.
- The JSX markup, icons and stylesheet (src/App.js:1-4, 111-202), apart from the modal-content selection, which is `ModalView`.
- Which buttons the page renders in which state: the model lets every handler run in every state. For that reason it claims no invariant tying `showModal` to `completedTask`.
- React's batching and rescheduling of state updates: each handler is one atomic transition from the state its closure captured.
- JavaScript strings are UTF-16 code-unit sequences. The model uses Dafny strings of Unicode scalar values, so lone surrogates cannot be expressed. Every white-space character that `trim()` strips lies in the Basic Multilingual Plane, so the blank test is the same.
