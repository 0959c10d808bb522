# Notes app: client view logic and list/create routes

A Dafny model of the stateful logic in a small note-taking web app. Notes have a title, content, a pinned flag, comma-separated tags and an optional folder. Folders have a name and a color. Deleted notes are kept as tombstones carrying an expiry time; the history listing shows only the unexpired ones.

The model covers four parts:

- **The client page** (`page.tsx`), in module `Page`:
  - `selectedNote` (`SelectedNote`, via `FindNote`);
  - `filteredNotes` (`FilteredNotes`): a folder filter followed by a case-insensitive substring search;
  - the request body `togglePin` sends (`TogglePinBody`);
  - the body `createFolder` sends (`CreateFolderBody`);
  - the editor state as a class, `Editor`. It has one field per `useState` hook except the folder list and the rendering flags `loading`, `saving` and `showCreateFolder`. Its methods are the page's state transitions: `StartCreate`, `SelectExisting`, and the resets that follow a save, a note deletion, a folder deletion and a folder creation.
- **`GET /api/history`** (`HistoryRoute`): the tombstones whose `expiresAt` is strictly after `now`, newest-deleted first, each with its folder. Expiry is lazy: the listing is a function of the stored tombstones, so expired ones stay stored.
- **`/api/notes`** (`NotesRoute`, `Db.Store.PostNote`): `GET` sorts every note by `createdAt`, newest first. `POST` validates the two required fields and stores only those two.
- **`/api/folders`** (`FoldersRoute`, `Db.Store.PostFolder`): `GET` lists folders newest first. Each folder's notes are pinned first, then newest first. `POST` requires a name and applies the `#3B82F6` color default.

The notes and folders tables are modelled in memory as `Db.Store`: a class with one sequence per table and the next auto-increment id of each of the two. The tombstone table is only read by the modelled routes, so `HistoryRoute.Get` takes it as a sequence.

- The `POST` handlers are `Store` methods. They append one record and keep `Valid()`: ids unique and below the next id, and every note's folder id below the next folder id (the foreign key).
- The `GET` handlers are functions of the store's sequences.
- Every query that can fail takes a `storeOk` flag. The routes that catch errors (folders, history) answer 500 with their error message. The notes route catches nothing, so a failure there is `Unhandled`, the framework's own 500.

Request bodies are `Json.Value`. `Field` models `const { x } = body ?? {}` and `Truthy` models JavaScript truthiness. So "missing", `null`, `false`, `0` and `""` are all rejected where the code writes `!x`.

Supporting modules:

- `Seqs`: filter, first-match search, subsequence, and a descending insertion sort over a two-column key.
- `Text`: `trim`, ASCII `toLowerCase`, `includes`.
- `Records`: the three record types and their sort keys.
- `Http`: requests and replies.

Points where the app behaves differently from what one might expect:

- The notes listing is ordered by `createdAt` only, not pinned first (`NotesRoute.PinnedNotListedFirst`).
- Note creation stores only title and content. The page sends pinned, tags and folder as well, and those are dropped.
- The notes listing takes no folder filter.

## Model

| member | source | states |
|---|---|---|
| Seqs.Filter | src/app/page.tsx:52-54 | the result keeps exactly the elements satisfying the predicate, each as often as in the input, as an order-preserving subsequence |
| Seqs.FindFirst | src/app/page.tsx:44 | None exactly when no element satisfies the predicate; otherwise the element at the first satisfying index |
| Seqs.SubsequenceTrans | src/app/page.tsx:47-67 | a subsequence of a subsequence is a subsequence (the two filter stages compose) |
| Seqs.SortDesc | src/app/api/notes/route.ts:6 | the result is a permutation of the input, ordered by the key non-increasing (lexicographic over the two `orderBy` columns) |
| Text.TrimEmptyIffBlank | src/app/page.tsx:58 | `query.trim()` is empty exactly when every character is whitespace |
| Text.TrimmedEnds | src/app/page.tsx:204-210 | a non-empty trimmed string starts and ends with a non-whitespace character |
| Text.Lower | src/app/page.tsx:59 | lowercasing keeps the length and maps each ASCII capital to its small letter, every other character to itself |
| Text.IncludesIff | src/app/page.tsx:61-63 | `includes` holds exactly when the query occurs at some position of the string |
| Json.Field | src/app/api/notes/route.ts:13 | a destructured property is the object's value for that name, and `undefined` for a missing name or a non-object (null included) body |
| Json.MissingFieldIsFalsy | src/app/api/notes/route.ts:13-14 | a null body, an empty object or an object lacking the name all give a falsy field |
| Page.FindNote | src/app/page.tsx:44 | None exactly when no note has the id; otherwise the first note with that id |
| Page.SelectedNote | src/app/page.tsx:42-45 | null unless a note id is selected; then the first note with that id, or null when none has it |
| Page.ByFolder | src/app/page.tsx:48-55 | keeps each note exactly as often as the input has it when the filter admits it (all; "uncategorized" = null or 0 folder; an id, where id 0 admits everything), nothing otherwise; unchanged for "all"; an order-preserving subsequence |
| Page.FilteredNotes | src/app/page.tsx:47-68 | equal, per note and multiplicity, to the one-step definition "folder filter admits it and the query is blank or matches untrimmed in title, content or tags"; an order-preserving subsequence of the notes; a blank query leaves the folder stage unchanged |
| Page.PaddedQueryMisses | src/app/page.tsx:58-64 | the query " x" hides a note whose fields are "x": matching uses the untrimmed query |
| Page.TogglePinBody | src/app/page.tsx:181-196 | no request for an unknown id; otherwise the first matching note's title, content, tags and folder with pinned negated |
| Page.CreateFolderBody | src/app/page.tsx:203-211 | no request exactly when the name is blank; otherwise `{ name: trimmed name }`, which the folder route never rejects |
| Page.Editor.constructor | src/app/page.tsx:27-40 | the initial state: no notes, no selection, all folders, empty editor fields and query |
| Page.Editor.ReceiveNotes | src/app/page.tsx:103 | the note list becomes the fetched list |
| Page.Editor.ChooseFolder | src/app/page.tsx:284-304 | the folder filter becomes the chosen one |
| Page.Editor.SetSearchQuery | src/app/page.tsx:266-271 | the query becomes the typed (or cleared) text |
| Page.Editor.StartCreate | src/app/page.tsx:131-138 | selection "new"; title, content, tags empty, pinned false; folder = the filter's folder id, null for "all" and "uncategorized"; nothing else changes |
| Page.Editor.SelectExisting | src/app/page.tsx:140-150 | the id is always selected; the five editor fields are copied from the first note with that id, and left unchanged when there is none |
| Page.Editor.FinishSave | src/app/page.tsx:169-175 | after saving: no selection and all five editor fields cleared |
| Page.Editor.FinishDeleteNote | src/app/page.tsx:237-242 | when the note selected at the time the handler started is the deleted one, the selection, title and content are cleared and pinned, tags and folder kept; otherwise nothing changes |
| Page.Editor.FinishDeleteFolder | src/app/page.tsx:225-227 | when the filter at the time the handler started was the deleted folder, it falls back to all notes; otherwise the current filter stays |
| Page.Editor.FinishCreateFolder | src/app/page.tsx:213 | the new-folder name box is cleared |
| NotesRoute.Get | src/app/api/notes/route.ts:4-8 | 200 with a permutation of the stored notes ordered by createdAt non-increasing; a failing query is an unhandled 500 |
| NotesRoute.PinnedNotListedFirst | src/app/api/notes/route.ts:5-7 | an older pinned note is listed after a newer unpinned one |
| NotesRoute.NewNote | src/app/api/notes/route.ts:17 | a created note takes id, title and content from its inputs and is unpinned, untagged and unfiled, stamped `now` |
| Db.Store.PostNote | src/app/api/notes/route.ts:11-19 | unparsable body: unhandled 500; falsy title or content (null body included): 400 and nothing stored; 201 exactly when both are truthy strings and the insert succeeds, with the stored note returned and appended as the only change; a non-string title or content or a failing insert is an unhandled 500 with the store unchanged; the store stays valid |
| FoldersRoute.NotesInFolder | src/app/api/folders/route.ts:7-14 | exactly the notes with that folder id, each as often as stored, pinned first and then createdAt non-increasing |
| FoldersRoute.Listing | src/app/api/folders/route.ts:6-16 | one entry per stored folder (a permutation), ordered by createdAt non-increasing, each with its folder's notes |
| FoldersRoute.Get | src/app/api/folders/route.ts:4-22 | 200 with the listing; a failing query gives 500 with the error body and no list |
| FoldersRoute.ColorOf | src/app/api/folders/route.ts:27 | the color is "#3B82F6" exactly when the body has none; a given color, null or empty included, is kept as given |
| FoldersRoute.BlankNameAccepted | src/app/api/folders/route.ts:29-31 | a non-empty name made only of whitespace passes validation and is storable: the server does not trim |
| Db.Store.PostFolder | src/app/api/folders/route.ts:24-44 | falsy name (null body included): 400 and nothing stored; 201 exactly when the name is a truthy string, the color after defaulting is a string and the insert succeeds, returning the folder with an empty note list, which is exactly the stored notes in that folder, and appending it as the only change; an unparsable body, a non-string name or color, or a failing insert gives 500 with the error body and no change; the store stays valid |
| HistoryRoute.Unexpired | src/app/api/history/route.ts:7-19 | every tombstone with expiresAt strictly after now, each as often as stored, and no other; ordered by deletedAt non-increasing |
| HistoryRoute.ExpiringNowNotListed | src/app/api/history/route.ts:9-11 | a tombstone expiring exactly at now is not listed |
| HistoryRoute.FolderOf | src/app/api/history/route.ts:13-15 | the included folder is a stored folder with the tombstone's folder id; none when the tombstone has no folder or the folder is not stored |
| HistoryRoute.Get | src/app/api/history/route.ts:4-24 | 200 with the unexpired tombstones in order, each with its folder; a failing query gives 500 with the error body and no list |

## Left out

- Month grouping (`groupedNotes`, src/app/page.tsx:70-92): it rests on locale date formatting and date parsing.
- Network and async plumbing: the `fetch` calls and the requests `saveNote` and `deleteNote` send; `fetchNotes`/`fetchFolders` and their fall-back to an empty list; `useEffect`; the folder list of the page state. Only the state changes those functions make after their requests are modelled; the selection or folder filter a delete handler captured when it started is a parameter of `FinishDeleteNote` and `FinishDeleteFolder`.
- Rendering: JSX, styles, the `loading`, `saving` and `showCreateFolder` flags, and how tags are split into chips.
- Framework and database internals: JSON parsing is reduced to "parsed or not", and SQL to filters and sorts over sequences.
- The database schema is not part of this model. The model assumes string columns for title, content, name and color, so a truthy non-string value makes the insert fail. It also assumes the defaults pinned = false and tags = "".
- Ties in an `orderBy`: the database leaves their order open. The model keeps input order, and the contracts promise only sortedness and a permutation.
- `Text.Lower`: lowercases ASCII letters only, not the full Unicode case mapping of `toLowerCase`.
- JSON numbers are integers, so fractional numbers are not modelled.
- Wall-clock time is the integer parameter `now`. Timestamps are integers.
- Id parsing in the `[id]` routes, note update, note delete, tombstone restore, folder update and the folder cascade are not part of this model.
