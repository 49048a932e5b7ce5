# Todo store and cyclic gallery, modelled in Dafny

This project models the two pieces of sequential logic in a collection of
React learning applications.

1. **The todo example.** The `Todo` record and the two-variant `TodoAction`
   union (`TodoTypes`). The reducer `todoReducer` and its initial state
   (`TodoContext`): `ADD_TODO` appends the payload, and `REMOVE_TODO` filters out
   every todo with the payload id. The `useReducer` cell that applies
   dispatched actions in order is the class `TodoStore`. The view
   (`TodoSections`) has four parts:
   - `addTodo` ignores blank input. Otherwise it dispatches one `ADD_TODO`
     stamped with the current time and clears the input.
   - Each item's Remove button dispatches `REMOVE_TODO` with that item's id.
   - The list renders one entry per todo, in state order.
   - Both components fail at once when there is no provider.
2. **The sculpture gallery** (`ButtonIterableState`). A class holding `index`
   into a non-empty sculpture list and a `showMore` flag. Next and Previous
   wrap around at the ends. The details button flips the flag.

Files: `wrappers.dfy` (Option, Result), `todo_types.dfy`, `todo_context.dfy`,
`todo_sections.dfy`, `gallery.dfy`.

What is proved, beyond each operation's own contract:
- Removal keeps the survivors in their relative order (`IsSubsequence`).
- Removal deletes exactly the copies of todos with the removed id
  (multiset counts).
- Removal is a no-op exactly when the id is absent, shortens the list
  exactly when the id is present, and is idempotent.
- `ADD_TODO` does not reject a duplicate id.
- Unique ids survive an action exactly when it is not a duplicate-id add.
- Replaying any sequence of actions from the initial state yields exactly
  the added todos that no later `REMOVE_TODO` removes, in insertion order.
- For the gallery: Next and Previous undo each other, `n` Next clicks come
  back to the start, and each handler leaves the other field alone.

The clock (`Date.now()`) is a parameter of `AddTodo`. The sculpture list is
a constructor parameter of `Gallery`; its contents are never read beyond its
length and the selected element.

## Model

| member | source | states |
|---|---|---|
| `TodoContext.WithoutId` | example-project/src/concepts/context-detail/context/TodoContext.tsx:20 | the filtered list is no longer than the input, holds no todo with the removed id, and holds exactly the input's todos with another id |
| `TodoContext.TodoReducer` | example-project/src/concepts/context-detail/context/TodoContext.tsx:14-25 | ADD_TODO: one longer, earlier todos unchanged, payload last; REMOVE_TODO: no longer, no todo with the id remains, every todo with another id remains |
| `TodoContext.WithoutIdIsSubsequence` | example-project/src/concepts/context-detail/context/TodoContext.tsx:19-21 | the result of REMOVE_TODO is a subsequence of the input (relative order preserved) |
| `TodoContext.WithoutIdCounts` | example-project/src/concepts/context-detail/context/TodoContext.tsx:20 | every todo with the removed id occurs zero times afterwards; every other todo occurs as often as before |
| `TodoContext.WithoutIdUnchangedIffAbsent` | example-project/src/concepts/context-detail/context/TodoContext.tsx:20 | REMOVE_TODO leaves the list unchanged if and only if no todo carries the id |
| `TodoContext.WithoutIdShrinksIffPresent` | example-project/src/concepts/context-detail/context/TodoContext.tsx:19-21 | REMOVE_TODO makes the list strictly shorter if and only if some todo carries the id |
| `TodoContext.SubsequenceOfSameLength` | example-project/src/concepts/context-detail/context/TodoContext.tsx:20 | a subsequence as long as its source is equal to it (used to show a filter that keeps the length keeps everything) |
| `TodoContext.SubsequenceLength` | example-project/src/concepts/context-detail/context/TodoContext.tsx:20 | a subsequence is never longer than its source |
| `TodoContext.WithoutIdIdempotent` | example-project/src/concepts/context-detail/context/TodoContext.tsx:20 | removing the same id twice equals removing it once |
| `TodoContext.WithoutIdConcat` | example-project/src/concepts/context-detail/context/TodoContext.tsx:20 | filtering a concatenation is the concatenation of the filtered parts |
| `TodoContext.AddDuplicateIdIsKept` | example-project/src/concepts/context-detail/context/TodoContext.tsx:17 | ADD_TODO with an id already present still appends the payload, so the ids are no longer unique |
| `TodoContext.ReducerKeepsUniqueIds` | example-project/src/concepts/context-detail/context/TodoContext.tsx:14-25 | from unique ids, the reducer's result has unique ids if and only if the action is not an ADD_TODO of a present id |
| `TodoContext.WithoutIdKeepsUniqueIds` | example-project/src/concepts/context-detail/context/TodoContext.tsx:20 | REMOVE_TODO never introduces a repeated id |
| `TodoContext.ReplaySnoc` | example-project/src/concepts/context-detail/context/TodoContext.tsx:36 | the state after one more dispatched action is one more reducer step on the previous state |
| `TodoContext.Replay` | example-project/src/concepts/context-detail/context/TodoContext.tsx:36 | the state after the log, one reducer step per action in dispatch order: an empty log leaves the state as it was, and the list grows by at most one todo per action |
| `TodoContext.WithoutIdsConcat` | example-project/src/concepts/context-detail/context/TodoContext.tsx:20 | filtering by a set of ids distributes over concatenation |
| `TodoContext.WithoutIdAsWithoutIds` | example-project/src/concepts/context-detail/context/TodoContext.tsx:20 | removing one id and then a set of ids is removing their union |
| `TodoContext.WithoutIdsNone` | example-project/src/concepts/context-detail/context/TodoContext.tsx:20 | filtering by the empty set of ids changes nothing |
| `TodoContext.ReplayCharacterised` | example-project/src/concepts/context-detail/context/TodoContext.tsx:14-25 | any run of actions from a state keeps the old todos whose ids are never removed, then the added todos not removed later, each in order |
| `TodoContext.ReplayFromInitial` | example-project/src/concepts/context-detail/context/TodoContext.tsx:9-11 | from the empty initial state, the store holds exactly the added todos that no later REMOVE_TODO removes, in insertion order |
| `TodoContext.AddAddRemoveScenario` | example-project/src/concepts/context-detail/context/TodoContext.tsx:16-21 | adding {1,"a"} and {2,"b"} gives both in order; removing id 1 afterwards leaves {2,"b"} |
| `TodoContext.TodoStore.constructor` | example-project/src/concepts/context-detail/context/TodoContext.tsx:36 | the cell starts from the empty initial state with nothing dispatched |
| `TodoContext.TodoStore.Dispatch` | example-project/src/concepts/context-detail/context/TodoContext.tsx:36 | one dispatch logs the action and replaces the state by the reducer's result, keeping state equal to the replay of the log |
| `TodoSections.TrimStart` | example-project/src/concepts/context-detail/sections/TodoMainSection.tsx:16 | the result is a suffix of the input, begins with a non-whitespace character or is empty, and only whitespace was dropped |
| `TodoSections.TrimEnd` | example-project/src/concepts/context-detail/sections/TodoMainSection.tsx:16 | the result is a prefix of the input, ends with a non-whitespace character or is empty, and only whitespace was dropped |
| `TodoSections.Trim` | example-project/src/concepts/context-detail/sections/TodoMainSection.tsx:16 | `trim()` is the contiguous slice of the input left after the leading and trailing whitespace; it neither begins nor ends with whitespace, and only whitespace or line terminators were cut off |
| `TodoSections.BlankIffAllTrimmable` | example-project/src/concepts/context-detail/sections/TodoMainSection.tsx:16 | `trim()` gives the empty string if and only if every character is JavaScript whitespace or a line terminator |
| `TodoSections.IsBlank` | example-project/src/concepts/context-detail/sections/TodoMainSection.tsx:16 | the guard `newTodo.trim() === ""` holds exactly when every character is JavaScript whitespace or a line terminator |
| `TodoSections.UseTodoContext` | example-project/src/concepts/context-detail/sections/TodoMainSection.tsx:6-10 | fails with the provider message if and only if there is no provider, and otherwise yields the provider's store |
| `TodoSections.RemoveActionFor` | example-project/src/concepts/context-detail/sections/TodoMainSection.tsx:56 | the Remove button's action is REMOVE_TODO carrying exactly that todo's id |
| `TodoSections.RenderTodos` | example-project/src/concepts/context-detail/sections/TodoMainSection.tsx:36-38 | one rendered item per todo, in state order, keyed by its id, showing its text and removing its id |
| `TodoSections.RemoveClickRemovesItsTodo` | example-project/src/concepts/context-detail/sections/TodoMainSection.tsx:56 | clicking Remove on the k-th rendered item removes that todo, shortens the list and keeps every todo with another id |
| `TodoSections.AddThenRemoveItsOwn` | example-project/src/concepts/context-detail/context/TodoContext.tsx:16-21 | an ADD_TODO followed by that todo's own Remove gives the old list with that id filtered out |
| `TodoSections.TodoMainSection.constructor` | example-project/src/concepts/context-detail/sections/TodoMainSection.tsx:12 | the input starts empty |
| `TodoSections.TodoMainSection.Mount` | example-project/src/concepts/context-detail/sections/TodoMainSection.tsx:6-13 | without a provider the section fails with the provider message; with one it is bound to that store with an empty input |
| `TodoSections.TodoMainSection.OnInputChange` | example-project/src/concepts/context-detail/sections/TodoMainSection.tsx:33 | the input holds exactly the typed value |
| `TodoSections.TodoMainSection.AddTodo` | example-project/src/concepts/context-detail/sections/TodoMainSection.tsx:15-26 | blank input: nothing dispatched, input unchanged; otherwise exactly one ADD_TODO with id `now` and the untrimmed text, appended to the state, and the input cleared |
| `TodoSections.TodoMainSection.Items` | example-project/src/concepts/context-detail/sections/TodoMainSection.tsx:36-38 | the section renders as many items as the state holds todos |
| `TodoSections.TodoItem.Mount` | example-project/src/concepts/context-detail/sections/TodoMainSection.tsx:43-50 | without a provider the item fails with the provider message; with one it is bound to that store and its todo |
| `TodoSections.TodoItem.constructor` | example-project/src/concepts/context-detail/sections/TodoMainSection.tsx:43 | the item is bound to the `todo` prop it is rendered with and to the provider's store |
| `TodoSections.TodoItem.OnRemoveClick` | example-project/src/concepts/context-detail/sections/TodoMainSection.tsx:56 | exactly one REMOVE_TODO with the item's id is dispatched; afterwards no todo with that id remains and every other todo does |
| `ButtonIterableState.NextIndex` | src/04.Hooks/01.StateHooks/ButtonIterableState.js:8-11 | the next index stays below the length and equals index + 1 modulo the length |
| `ButtonIterableState.PrevIndex` | src/04.Hooks/01.StateHooks/ButtonIterableState.js:13-16 | the previous index stays below the length and is the index whose successor modulo the length is the current one |
| `ButtonIterableState.NextTimes` | src/04.Hooks/01.StateHooks/ButtonIterableState.js:8-11 | the index after k Next clicks stays below the list length |
| `ButtonIterableState.PrevAfterNext` | src/04.Hooks/01.StateHooks/ButtonIterableState.js:8-16 | Previous after Next returns to the original index |
| `ButtonIterableState.NextAfterPrev` | src/04.Hooks/01.StateHooks/ButtonIterableState.js:8-16 | Next after Previous returns to the original index |
| `ButtonIterableState.NextTimesAdd` | src/04.Hooks/01.StateHooks/ButtonIterableState.js:8-11 | a + b Next clicks are a clicks followed by b clicks |
| `ButtonIterableState.NextTimesForward` | src/04.Hooks/01.StateHooks/ButtonIterableState.js:8-11 | k Next clicks that do not reach past the end move the index k places forward |
| `ButtonIterableState.NextFullCycle` | src/04.Hooks/01.StateHooks/ButtonIterableState.js:8-11 | n Next clicks on a list of length n return to the starting index |
| `ButtonIterableState.NextTimesPeriodic` | src/04.Hooks/01.StateHooks/ButtonIterableState.js:8-11 | Next clicks repeat with period n |
| `ButtonIterableState.Gallery.constructor` | src/04.Hooks/01.StateHooks/ButtonIterableState.js:5-6 | the gallery starts at index 0 with details hidden |
| `ButtonIterableState.Gallery.HandleNextClick` | src/04.Hooks/01.StateHooks/ButtonIterableState.js:8-11 | the index becomes the cyclic next index and stays in range; `showMore` is unchanged |
| `ButtonIterableState.Gallery.HandlePrevClick` | src/04.Hooks/01.StateHooks/ButtonIterableState.js:13-16 | the index becomes the cyclic previous index and stays in range; `showMore` is unchanged |
| `ButtonIterableState.Gallery.HandleMoreClick` | src/04.Hooks/01.StateHooks/ButtonIterableState.js:18-20 | `showMore` flips; the index is unchanged |
| `ButtonIterableState.Gallery.Sculpture` | src/04.Hooks/01.StateHooks/ButtonIterableState.js:22 | `sculptureList[index]` is a valid access and yields an element of the list |
| `ButtonIterableState.Gallery.Position` | src/04.Hooks/01.StateHooks/ButtonIterableState.js:32 | the shown position `index + 1` lies in 1..n |
| `ButtonIterableState.NextThenPrev` | src/04.Hooks/01.StateHooks/ButtonIterableState.js:8-16 | clicking Next then Previous leaves both fields as they were |
| `ButtonIterableState.PrevThenNext` | src/04.Hooks/01.StateHooks/ButtonIterableState.js:8-16 | clicking Previous then Next leaves both fields as they were |
| `ButtonIterableState.ToggleTwice` | src/04.Hooks/01.StateHooks/ButtonIterableState.js:18-20 | two clicks on the details button leave both fields as they were |

## Left out

- The reducer's `default:` branch (TodoContext.tsx:22-23) has no counterpart. `TodoAction` is an exhaustive two-constructor datatype, so no action reaches that branch, just as no well-typed action does in the TypeScript.
- Todo ids are JavaScript numbers; the model uses unbounded integers, since `Date.now()` yields integers. NaN and fractional ids are not modelled.
- `Date.now()` is the parameter `now` of `TodoMainSection.AddTodo`. The clock itself is not modelled, so nothing is said about two adds in the same millisecond getting the same id (that case is the duplicate-id add covered by `AddDuplicateIdIsKept`).
- Strings: a Dafny `string` is a sequence of Unicode scalar values, while a JavaScript string is a sequence of UTF-16 code units. `trim` behaves the same under both, because every character it strips is a single code unit of the Basic Multilingual Plane. The model cannot represent an input that holds a lone surrogate.
- Rendering is reduced to the list `RenderTodos` returns. Markup, the text input widget, the `key` reconciliation by React and the gallery's image, caption and "Show"/"Hide" label are not modelled.
- `createContext`, `useReducer` and `TodoContext.Provider` are React runtime plumbing. The provider is modelled only as the `TodoStore` cell and as an `Option` of it handed to `Mount`. React's asynchronous state batching is not modelled: each handler's state update takes effect at once.
- `ButtonIterableState.Gallery.constructor` requires a non-empty sculpture list. With an empty list, `sculptureList[0]` is `undefined`, and the render fails with a TypeError when it reads `sculpture.name` (ButtonIterableState.js:28). The list's contents (`data.js`) are not part of this model.
- The pet search and detail pages, the `@tanstack/react-query` cache, the network fetchers, the adopted-pet context slot, routing, modals, carousels and the tic-tac-toe game are outside this model. They are either view code or code from libraries and files that are not part of this model.
