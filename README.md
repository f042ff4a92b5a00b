# Planit task list — a Dafny model of its state machine

Planit is a single-screen React Native task planner. Its only logic is the
state held by the `App` component and the handlers that change it. The rest is
rendering and a style table. The state has five cells:

- `items`: the task list, a sequence of `{id, text, checked}`;
- `editingItem`: the id being edited, or `null`;
- `modalVisible`: whether the edit dialog is shown;
- `newItemText`: one text buffer shared by the add field and the edit field;
- `darkMode`: the display mode.

Seven handlers change this state: `toggleCheck`, `openModal`, `closeModal`,
`updateItemText`, `addItem`, `clearCompleted` and `toggleDarkMode`. Both text
fields also write the buffer on every keystroke.

The model has four modules:

- `Text` (text.dfy) models the whitespace test the handlers use
  (`s.trim() !== ''`). It defines ECMAScript's trim and proves that the trimmed
  string is empty exactly when every character is whitespace.
- `TaskList` (task_list.dfy) holds the `Item` datatype and the pure list
  transformations inside the handlers. These are the `map` that toggles, the
  `map` that edits, `find` by id and `filter` on unchecked. Each has a contract
  that describes it and lemmas about it: toggling is an involution, an absent
  id is a no-op for toggling and editing, `find` on a concatenation searches
  the second part only when the first has no match, and the filter keeps
  order and is idempotent.
- `Planner` (app.dfy) is the class `App`. It has the five state cells as fields
  and one method per handler. Each method states its whole new state in terms
  of the old one. `Valid()` is the invariant `modalVisible == (editingItem !=
  null)`. The constructor establishes it. `OpenModal`, `CloseModal` and
  `UpdateItemText` re-establish it. The other handlers leave both fields
  unchanged and state that they keep it.
- `Scenarios` (scenarios.dfy) holds client methods that issue handler calls
  in sequence, as the screen would. They show what callers can conclude from
  the handlers' contracts.

The model follows the code as written:

- A new id is the list's length plus one. Ids can therefore repeat: checking
  entry 1 of the initial list, clearing completed entries and adding a task
  gives ids 2, 3, 3 (`Scenarios.AddAfterClearDuplicatesId`).
- Because ids can repeat, toggling and editing affect every entry with the
  matching id. Opening the dialog reads only the first match.
- Texts are stored verbatim. Trimming is used only for the blank test.
- A blank add leaves the buffer as typed. A commit always clears it.

## Model

| member | source | states |
|---|---|---|
| `Text.TrimStart` | App.jsx:50 | The result is a suffix of the input. Everything dropped is whitespace. The result is empty or starts with a non-whitespace character. |
| `Text.TrimEnd` | App.jsx:62 | The result is a prefix of the input. Everything dropped is whitespace. The result is empty or ends with a non-whitespace character. |
| `Text.TrimEmptyIffBlank` | App.jsx:50 | `s.trim() === ''` holds if and only if every character of `s` is whitespace. |
| `Text.TrimNotEmpty` | App.jsx:62 | A string with any non-whitespace character passes the non-blank test. |
| `TaskList.InitialItems` | App.jsx:18-22 | The list starts with three unchecked entries with ids 1, 2 and 3. |
| `TaskList.Toggled` | App.jsx:31-33 | The length is kept. Every entry keeps its id and text. `checked` flips exactly on entries whose id equals the argument. |
| `TaskList.ToggledAbsent` | App.jsx:29-35 | Toggling an id that no entry carries returns the list unchanged. |
| `TaskList.ToggledTwice` | App.jsx:29-35 | Toggling the same id twice restores the list. |
| `TaskList.Retexted` | App.jsx:52-54 | The length is kept. Every entry keeps its id and `checked`. The text becomes the buffer verbatim exactly on entries whose id equals the edit target. A `null` target matches nothing. |
| `TaskList.RetextedNoMatch` | App.jsx:52-54 | An edit with no target, or with a target no entry carries, returns the list unchanged. |
| `TaskList.FindById` | App.jsx:39 | The result is none exactly when no entry has the id. Otherwise it is an entry with that id, and no earlier entry has that id. |
| `TaskList.FindByIdConcat` | App.jsx:39 | `find` on `a + b` returns the first match in `a` when `a` has one, and otherwise the first match in `b`. |
| `TaskList.TextOf` | App.jsx:39 | The result is `''` when no entry has the id. Otherwise it is the text of the first entry with that id. |
| `TaskList.Uncompleted` | App.jsx:74 | The result is never longer than the input. It holds only unchecked entries of the input, and every unchecked entry of the input. |
| `TaskList.UncompletedConcat` | App.jsx:74 | Filtering `a + b` gives the filtered `a` followed by the filtered `b`. So the kept entries keep their relative order. |
| `TaskList.UncompletedKeepsAllIff` | App.jsx:73-75 | The filter returns the list unchanged, and keeps its length, if and only if no entry is checked. |
| `TaskList.UncompletedIdempotent` | App.jsx:73-75 | Clearing completed entries twice gives the same list as clearing them once. |
| `Planner.App.constructor` | App.jsx:15-27 | The initial state has the three starting entries, no edit target and a hidden dialog (so `Valid()` holds). The buffer is empty. `darkMode` is true exactly when the host scheme is `'dark'`. |
| `Planner.App.ToggleCheck` | App.jsx:29-35 | The new list is the old list with `checked` flipped on every matching entry. The other four cells are unchanged. `Valid()` is kept. |
| `Planner.App.OpenModal` | App.jsx:37-41 | The edit target becomes the id and the dialog is shown (`Valid()` holds). The buffer becomes the first match's text or `''`, overwriting any draft. `items` and `darkMode` are unchanged. |
| `Planner.App.CloseModal` | App.jsx:43-47 | The target becomes `null`, the dialog is hidden and the buffer is `''` (`Valid()` holds). `items` and `darkMode` are unchanged. |
| `Planner.App.UpdateItemText` | App.jsx:49-59 | A non-blank buffer is stored verbatim on every entry matching the target. A blank buffer leaves `items` unchanged. Either way the state ends closed (`null`, hidden, `''`) and `darkMode` is unchanged. |
| `Planner.App.AddItem` | App.jsx:61-71 | A non-blank buffer appends exactly one entry `{old length + 1, buffer verbatim, unchecked}` after the unchanged old entries and empties the buffer. A blank buffer changes neither `items` nor the buffer. The other cells are unchanged. `Valid()` is kept. |
| `Planner.App.ClearCompleted` | App.jsx:73-75 | The new list is the unchecked entries of the old one. The other cells are unchanged. `Valid()` is kept. |
| `Planner.App.ToggleDarkMode` | App.jsx:77-79 | `darkMode` flips. The other four cells are unchanged. `Valid()` is kept. |
| `Planner.App.SetNewItemText` | App.jsx:95 | The buffer becomes the field's text. The other cells are unchanged. This setter is shared with the edit field at line 136. `Valid()` is kept. |
| `Scenarios.OpenThenClose` | App.jsx:37-47 | Opening the dialog and cancelling leaves `items` and `darkMode` identical and ends in the closed state. |
| `Scenarios.ToggleCheckTwice` | App.jsx:29-35 | Tapping the same entry twice restores `items`. |
| `Scenarios.ToggleDarkModeTwice` | App.jsx:77-79 | Toggling the display mode twice restores it. |
| `Scenarios.ClearCompletedTwice` | App.jsx:73-75 | Two clears in a row leave the same list as one. |
| `Scenarios.ClearAfterCheckingFirst` | App.jsx:18-35 | Checking entry 1 of the initial list and then clearing completed entries leaves entries 2 and 3. |
| `Scenarios.AddAfterClearDuplicatesId` | App.jsx:61-75 | Check entry 1 of the initial list, clear completed entries, then add a task. The ids become 2, 3, 3: the new entry reuses id 3. |
| `Scenarios.OpenModalDiscardsDraft` | App.jsx:37-47 | A draft typed for adding is replaced by the edited entry's text on opening the dialog. It is `''` after cancelling. |
| `Scenarios.EditAny` | App.jsx:37-59 | For any app, id and text with a non-whitespace character: opening the dialog, typing the text and committing stores the text verbatim on every entry with that id. The rest of the list and `darkMode` are unchanged. The state ends closed (`null`, hidden, `''`). |
| `Scenarios.EditSecondEntry` | App.jsx:49-59 | From the initial list, opening entry 2, typing "Pay rent" and committing gives exactly `[{1, "Item 1", false}, {2, "Pay rent", false}, {3, "Item 3", false}]`. The dialog ends hidden. |
| `Scenarios.AddBlankIsIgnored` | App.jsx:61-62 | Adding with an all-whitespace buffer leaves `items` unchanged and keeps the buffer as typed. |

## Left out

- Rendering (App.jsx:81-145): the list view, the dialog, the buttons and the touch targets. This is the UI layer. It only displays the state and forwards taps and keystrokes to the handlers.
- The style table (App.jsx:148-246): presentation constants with no behaviour.
- `useColorScheme()` (App.jsx:15): a query to the host platform. Its answer is the constructor's `colorScheme` parameter. A `null` answer is any string other than `"dark"`.
- React's asynchronous, batched state updates and stale closures. For example, `addItem` reads `items` from its closure. Each handler is modelled as one atomic step on the five cells.
- Strings: JavaScript strings are UTF-16 code units, while Dafny characters are Unicode scalar values. The whitespace set is that of ECMAScript's `trim` (the WhiteSpace and LineTerminator productions). The model does not capture lone surrogates.
- Id uniqueness: the code does not guarantee it, so the model asserts no such invariant. The collision is shown instead.
- `openModal`'s `?.text || ''` would also turn an empty stored text into `''`. That is the same value, so the model reads the first match's text directly.
