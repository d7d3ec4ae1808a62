# Jotter notes: a Dafny model

Jotter is a small notes application with three parts:

- a member list you can add to, rename and delete from;
- a notes pane that shows the selected member's notes, grouped by day and sorted by when each note was first written;
- an RPC router that forwards every call to a JSON document store.

When a note is edited, the router writes the whole record back, with the new text and the server's time. It appends the caller's `previousVersion` to the note's version history as given, without comparing it with the stored text or timestamp. The pane can expand that history per note.

This project models, in Dafny:

- **`Records`** (`records.dfy`): the record types (member, note, note version and the two note inputs). It also defines `Option`/`Result` and JavaScript's truthiness of an optional string.
- **`JsString`** (`jsstring.dfy`): `String.prototype.trim`, using ECMAScript's white-space and line-terminator set.
- **`Router`** (`router.dfy`): the router procedures, as methods of a `Store` class. The store holds the `members` and `notes` collections. Each collection is a map from id to record, plus the order in which the store lists its records.
  - The central piece is `updateNote`'s versioned merge, specified by the function `Versioned`.
- **`NotesSection`** (`notes_section.dfy`): the notes pane.
  - Pure parts: the original-timestamp rule and the submit and edit guards.
  - Loops: grouping by day (a `for` loop proved against the functions `DaysOf`/`OnDay`), and the in-place sort of each group (an insertion sort on an `array`).
  - The pane's own state is a `NotesPane` class: draft text, the note being edited, and the set of expanded histories.
- **`UsersList`** (`users_list.dfy`): the member list's state machine as a `UsersPane` class. Its state is the member being edited and the selected member id.

Clocks, generated ids and date parsing are parameters:

- `now` is the time an ISO timestamp would carry.
- `tempId` is the `Date.now()`-based id.
- `timeOf` maps a timestamp to the milliseconds that `new Date(t).getTime()` returns.
- `dateKey` maps a timestamp to the heading that `toLocaleDateString` returns.

## Model

| member | source | states |
|---|---|---|
| JsString.Trim | src/app/components/notesSection.tsx:118 | the result has no white space at either end, is no longer than the input, and is empty exactly when the input is all white space |
| JsString.TrimIsSlice | src/app/components/notesSection.tsx:118 | the result is a slice of the input whose stripped prefix and suffix are all white space |
| JsString.TrimPadded | src/app/components/notesSection.tsx:130 | trimming white space around a core that has no white space at either end gives back exactly that core |
| JsString.TrimIdempotent | src/app/components/notesSection.tsx:130 | trimming twice is trimming once |
| Router.Created | src/server/trpc/router.ts:59-67 | the record `createNote` posts carries the input's id, member, text and timestamp and has no version history |
| Router.Versioned | src/server/trpc/router.ts:76-96 | the note written back keeps its id and member, takes the caller's text and the server's time, and its history is the old history (absent counts as empty) with exactly the caller's previous version appended |
| Router.UpdateNotIdempotent | src/server/trpc/router.ts:82-96 | sending the same update twice appends the previous version twice, and the resulting note differs from the note after one update |
| Router.Without | src/server/trpc/router.ts:36-41 | removing an id keeps exactly the other ids, and distinct ids stay distinct |
| Router.WithoutAbsent | src/server/trpc/router.ts:36-41 | removing an id that is not listed changes nothing |
| Router.NotesOf | src/server/trpc/router.ts:52-57 | the filtered list holds only stored notes of that member, holds every one of them, and holds each once |
| Router.Store.Users | src/server/trpc/router.ts:15-19 | `getUsers` lists every stored member, only stored members, each once, in the store's listing order |
| Router.Store.AllNotes | src/server/trpc/router.ts:21-25 | `getNotes` lists every stored note, only stored notes, each once, in the store's listing order |
| Router.Store.UserNotes | src/server/trpc/router.ts:52-57 | `getUserNotes` lists exactly the stored notes of the member, each once, and is empty (not an error) when the member has none |
| Router.Store.CreateUser | src/server/trpc/router.ts:27-34 | a new id is stored and appended to the listing; an existing id is refused and nothing changes; notes are untouched |
| Router.Store.UpdateUser | src/server/trpc/router.ts:43-50 | an existing member is replaced by the input in place; an unknown id is reported and nothing changes |
| Router.Store.DeleteUser | src/server/trpc/router.ts:36-41 | the member is removed from the store and the listing; an unknown id is reported and nothing changes; the member's notes stay |
| Router.Store.CreateNote | src/server/trpc/router.ts:59-67 | a new note with the input's fields and no history is stored and listed; an existing id is refused |
| Router.Store.UpdateNote | src/server/trpc/router.ts:69-99 | succeeds exactly when the note exists; the stored note becomes the versioned merge of the old note, and nothing else changes |
| NotesSection.OriginalTimestamp | src/app/components/notesSection.tsx:88-93 | the first history entry's timestamp when there is a history; otherwise the note's timestamp when it is non-empty, else the literal default (so an empty timestamp falls back too); without history the result is never empty |
| NotesSection.DaysOf | src/app/components/notesSection.tsx:96-105 | the day headings carry no duplicates |
| NotesSection.DayListed | src/app/components/notesSection.tsx:96-105 | every fetched note's day has a heading |
| NotesSection.DayHasNotes | src/app/components/notesSection.tsx:100-103 | every heading has at least one note under it |
| NotesSection.NoDayNoGroup | src/app/components/notesSection.tsx:100-103 | a day with no note has no group |
| NotesSection.GroupNotes | src/app/components/notesSection.tsx:96-105 | the reduce builds the headings in first-appearance order, and for each heading the notes of that day in fetch order, with no other keys |
| NotesSection.OnDayCount | src/app/components/notesSection.tsx:96-105 | a note appears in its own day's group as often as in the fetched list, and in no other group |
| NotesSection.Rendered | src/app/components/notesSection.tsx:179-185 | the order the pane lists notes in: the groups concatenated in heading order, so the first heading's group opens the list |
| NotesSection.GroupingPartitions | src/app/components/notesSection.tsx:96-105 | the groups read in heading order are a permutation of the fetched list |
| NotesSection.RenderedPermutes | src/app/components/notesSection.tsx:108-114 | reordering inside groups keeps the displayed notes a permutation |
| NotesSection.SortGroup | src/app/components/notesSection.tsx:109-113 | the group ends sorted by original timestamp and is a permutation of what it was |
| NotesSection.SortGroups | src/app/components/notesSection.tsx:108-114 | every group is sorted and is a permutation of its unsorted self; the set of headings is unchanged |
| NotesSection.ArrangeNotes | src/app/components/notesSection.tsx:95-114 | headings come in first-appearance order; each group is sorted and is a permutation of its day's notes; the whole display is a permutation of the fetched list |
| NotesSection.SubmitRequest | src/app/components/notesSection.tsx:116-127 | no note is created exactly when nothing is selected or the draft is blank; otherwise the payload carries the selected member, the trimmed non-empty draft, the temporary id and the time |
| NotesSection.SubmittedNoteKeyedByCreation | src/app/components/notesSection.tsx:121-126 | a submitted note starts without history and is filed under its creation time |
| NotesSection.UpdateRequest | src/app/components/notesSection.tsx:129-143 | no update is sent exactly when the trimmed text equals the current text; otherwise the update carries the trimmed, different text and the current text with the note's own timestamp (the client's time when it has none) as the previous version |
| NotesSection.EditKeepsOriginalTimestamp | src/app/components/notesSection.tsx:88-93 | an edit keeps the original timestamp (so the day and the sort position) of a note that has a timestamp or a history |
| NotesSection.ReplayKeepsOriginalTimestamp | src/app/components/notesSection.tsx:88-93 | the same holds over any sequence of edits |
| NotesSection.UntimedNoteMovesOnEdit | src/app/components/notesSection.tsx:138-141 | for every note with no truthy timestamp and no history, whose trimmed new text differs from its text, the original timestamp moves from the default to the client's time on the edit |
| NotesSection.ResaveIsNoop | src/app/components/notesSection.tsx:130-133 | saving a text again that trims to the text just saved sends nothing |
| NotesSection.Toggled | src/app/components/notesSection.tsx:145-155 | the note's id flips membership of the expanded set; every other id is unchanged |
| NotesSection.ToggleTwiceRestores | src/app/components/notesSection.tsx:145-155 | toggling twice restores the set |
| NotesSection.NotesPane.constructor | src/app/components/notesSection.tsx:29-31 | the pane starts with an empty draft, no note being edited and no history expanded |
| NotesSection.NotesPane.Submit | src/app/components/notesSection.tsx:116-127 | sends the create exactly when the submit guard allows it, then clears the draft once the note is stored; the other pane state is unchanged |
| NotesSection.NotesPane.SaveEdit | src/app/components/notesSection.tsx:129-143 | closes the editor without a call when the text is unchanged; otherwise sends the update, stores the versioned merge, and closes the editor only on success |
| NotesSection.NotesPane.ToggleVersions | src/app/components/notesSection.tsx:145-155 | the expanded set becomes its toggled value |
| UsersList.UsersPane.constructor | src/app/components/usersList.tsx:31 | the list starts with no member being edited and, as the page's state starts, none selected |
| UsersList.UsersPane.SelectFirst | src/app/components/usersList.tsx:34-38 | selects the first listed member when the list is loaded and non-empty and nothing is selected; otherwise leaves the selection alone |
| UsersList.UsersPane.Select | src/app/components/usersList.tsx:117 | selects the clicked member |
| UsersList.UsersPane.Edit | src/app/components/usersList.tsx:118 | the edited fields become the member being edited |
| UsersList.UsersPane.NewUser | src/app/components/usersList.tsx:42-51 | opens an empty new member under the temporary id and selects it |
| UsersList.UsersPane.Save | src/app/components/usersList.tsx:53-70 | nothing happens without a member being edited; a new member is created and an existing one updated; the store changes accordingly; the editor closes only when the call succeeds |
| UsersList.UsersPane.Cancel | src/app/components/usersList.tsx:72-77 | closes the editor, and clears the selection exactly when a new, unsaved member was being edited |
| UsersList.UsersPane.Delete | src/app/components/usersList.tsx:79-84 | deletes the member in the store, and after success clears the selection exactly when it was the deleted member |

## Left out

**Transport and the store**
- HTTP, the JSON server URL, `axios`, tRPC, superjson and the zod input schemas are left out. The store is a class, and a procedure is a method call on it. Inputs are typed records, so schema validation cannot fail.
- The store's answers for a duplicate id on create (refused) and for an unknown id on update, delete and fetch (not found) come from the document store, which is not part of this model. They are modelled as `Result` errors that leave the store unchanged.
- Fields beyond the declared record fields and query-string encoding of the member id are left out. The `member` filter is an exact match.
- Concurrency: two interleaved `updateNote` calls (get, then put) can lose an update. The model runs each call atomically.

**Clocks, ids and dates**
- `Date.now()`, `new Date().toISOString()`, `new Date(t).getTime()` and `toLocaleDateString` are parameters.
  - Invalid dates (NaN keys in the comparator) are not modelled.
  - Locale formatting is not modelled.

**The sort**
- NotesSection.SortGroup: does not state that the sort is stable. In the source, notes with equal keys keep their fetch order, because `Array.prototype.sort` is stable since ECMAScript 2019. This matters for every note without a timestamp or history, since they all share the default key. The contract leaves the order of equal-key notes open, although the insertion sort only swaps on a strictly greater key.

**Pane state and rendering**
- A mutation that fails (the awaited promise rejects) leaves the pane state as it was, because the code after the `await` does not run. Loading states, error display, cache invalidation, refetching and scrolling are not modelled.
- The edits lemmas (`EditKeepsOriginalTimestamp`, `ReplayKeepsOriginalTimestamp`, `ResaveIsNoop`, `UntimedNoteMovesOnEdit`) assume the pane's copy of a note equals the stored note. After a refetch it does.
- These parts of the UI are not modelled:
  - the effect that clears the draft when the selected member changes;
  - the text-field change handlers that set the draft and the edited text;
  - the edit button that opens a note for editing, and the note editor's Cancel button that closes it;
  - JSX rendering and `formatTimestamp`.
- The `console.log` calls in the router and the member list are left out: they only write to the console.
- `userListItem.tsx`, `page.tsx`, `layout.tsx`, `route.ts` and `trpc.tsx` are not part of this model. They only render, hold the selected id, or wire the router to HTTP.
