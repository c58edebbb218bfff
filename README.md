# MindVault notes client: a Dafny model of its note logic

This project models the part of the MindVault note client that carries logic
rather than markup:

- the **note repository** (`src/services/notesService.js`): create, update,
  delete, list-for-owner and get-by-id against the Firestore `notes`
  collection. The collection is the map `NoteStore.docs` from document id to
  document data. The server clock behind `serverTimestamp()` is the counter
  `NoteStore.clock`. `addDoc` picks an id that is not yet in the map. Each
  operation makes one round trip, and its outcome is the input `Reply`: the
  store answers (`Delivered`), or the call fails with a store error
  (`Failed(f)`), which the repository re-throws unchanged (`Store(f)`).
- the **note list** (`src/components/Notes/NoteList.jsx`): the `fetchNotes`
  effect over `notes`, `loading` and `error`; the dependency check that
  re-runs it when the user or the refresh trigger changes; the
  case-insensitive substring search; and what the list renders.
- the **note card** (`src/components/Notes/NoteCard.jsx`): content
  truncation, the title fallback, the date that is shown, and the delete flow
  around the `isDeleting` flag.
- the **dashboard shell** (`src/components/Dashboard/Dashboard.jsx`): the
  four state fields and the handlers that change them. `refreshTrigger` counts
  the saves and deletes it has been told about.

Files: `Results.dfy` (Option, Result), `NotesService.dfy`, `NoteList.dfy`,
`NoteCard.dfy`, `Dashboard.dfy`, and `Scenarios.dfy`. The last file holds
client methods that put the pieces together. A confirmed delete on a card
bumps the shell's trigger, and the list's effect then re-fetches a listing
without the note. Two notes created for one user come back newest first, and
the search finds each of them.

Async calls are atomic steps that succeed or fail. The list shows a state
while its fetch is awaited (the spinner), so its fetch is split at the
`await`: `BeginFetch` and `EndFetch` each have their own contract, and
`FetchNotes` composes them with the store call. The card's delete,
`NoteCard.HandleDelete`, is a single step.

## Behaviour kept as the code has it

- A failed fetch sets the error text and keeps the notes already loaded.
  Nothing clears `notes` on that path (NoteList.jsx:25-27), so
  `NoteList.FetchNotes` keeps them, and `NoteList.View` shows them under the
  error banner.
- Without a user, the fetch only clears `loading`. It leaves `notes` and
  `error` as they were and makes no request (NoteList.jsx:15-18).
- Deleting an id that is not in the collection succeeds and changes nothing.
  `deleteNote` makes no existence check (notesService.js:71-79), and
  Firestore's `deleteDoc` succeeds on a missing document, so a second delete
  of the same id succeeds too.
- `updateNote` on a missing id fails with the store's `not-found` error
  (`Store(NotFound)`). That is what Firestore's `updateDoc` does.

## Model

| member | source | states |
|---|---|---|
| NotesService.NoteStore.CreateNote | src/services/notesService.js:26-44 | On success, returns an id that was not in the collection. The collection gains exactly that record: the given owner, title and content, `embedding` null, and `createdAt == updatedAt ==` the next server time. On a store failure, it re-throws the failure and changes nothing. |
| NotesService.NoteStore.Tick | src/services/notesService.js:32-33 | The server timestamp of a write is strictly later than every earlier one. |
| NotesService.NoteStore.UpdateNote | src/services/notesService.js:52-65 | Sets title, content and a strictly later `updatedAt`. Keeps owner, `createdAt` and embedding, and touches no other document. A missing id fails with `not-found`. A store failure is re-thrown and changes nothing. |
| NotesService.NoteStore.DeleteNote | src/services/notesService.js:71-79 | On success, the id is gone and no other document changed. A store failure is re-thrown and changes nothing. |
| NotesService.NoteStore.QueryByOwner | src/services/notesService.js:88-94 | The store's answer to the owner filter ordered by `updatedAt` descending holds exactly the owner's documents, each once, each with its stored data, newest first. |
| NotesService.NoteStore.GetUserNotes | src/services/notesService.js:86-109 | Returns exactly the owner's notes, each once, each carrying its document id and its stored data, ordered by `updatedAt` descending. A store failure is re-thrown. |
| NotesService.NoteStore.GetNoteById | src/services/notesService.js:116-133 | Returns the stored note with its id attached when the id exists. Otherwise it fails with "Note not found". A store failure is re-thrown. |
| NotesService.WithId | src/services/notesService.js:98-101 | Spreading the document data next to its id keeps the id, and stripping the id gives the data back. |
| NotesService.FreshIdExists | src/services/notesService.js:38 | A finite collection always leaves an unused id, so `addDoc` can always pick a fresh one. |
| NotesService.InsertDocDescending | src/services/notesService.js:91 | Placing a document into a snapshot ordered by `updatedAt` descending keeps it ordered. |
| NotesService.InsertDocDistinct | src/services/notesService.js:88-94 | Adding a document whose id is new keeps the snapshot's ids distinct. |
| NotesService.InsertDocMembers | src/services/notesService.js:88-94 | The new snapshot holds the old documents plus the inserted one and nothing else. |
| NotesService.ListingIsOwnedSet | src/services/notesService.js:88-101 | The ids of a listing are exactly the ids the owner has in the collection, and the listing is exactly that long. |
| NotesService.TwoOwnedListing | src/services/notesService.js:91 | An owner with two documents updated at different times gets the more recently updated one first. |
| NotesService.DistinctIdsCount | src/services/notesService.js:97-102 | A list of notes with pairwise different ids has as many ids as notes. |
| NoteListView.LowerChar | src/components/Notes/NoteList.jsx:37-38 | Each letter 'A'..'Z' becomes the matching letter 'a'..'z'. Every other character stays as it is, so no upper-case letter remains. |
| NoteListView.LowerCharIdentifiesCase | src/components/Notes/NoteList.jsx:37-38 | Two characters lower-case to the same character iff they are equal or are the two cases of one ASCII letter. |
| NoteListView.Lower | src/components/Notes/NoteList.jsx:37-38 | `toLowerCase()` keeps the length, lower-cases every character in place, and leaves no upper-case letter. |
| NoteListView.Includes | src/components/Notes/NoteList.jsx:37-38 | `includes`: the empty string occurs in every text. An occurring needle is no longer than the text, and its first character appears in the text. |
| NoteListView.Matches | src/components/Notes/NoteList.jsx:37-38 | The filter's test: the empty query matches every note, and a matching query is no longer than the title or the content. |
| NoteListView.LowerSlice | src/components/Notes/NoteList.jsx:37-38 | Lower-casing a slice gives the same text as slicing the lower-cased string. |
| NoteListView.LowerOfLowercase | src/components/Notes/NoteList.jsx:37-38 | Text without upper-case letters is unchanged by lower-casing. |
| NoteListView.FilterNotes | src/components/Notes/NoteList.jsx:36-39 | A note is in the result iff its lower-cased title or content contains the lower-cased query. Each matching note keeps its multiplicity, and the result is an order-preserving subsequence of `notes`. |
| NoteListView.NoteList.FilteredNotes | src/components/Notes/NoteList.jsx:36-39 | `filteredNotes` holds exactly the loaded notes that match the current query, in their order, and all of them when the query is empty. |
| NoteListView.FilterEmptyQuery | src/components/Notes/NoteList.jsx:36-39 | The empty query keeps every note, in order. |
| NoteListView.FilterIdempotent | src/components/Notes/NoteList.jsx:36-39 | Filtering the filtered list again with the same query returns it unchanged. |
| NoteListView.ExactOccurrenceMatches | src/components/Notes/NoteList.jsx:37-38 | A note whose title or content contains the query verbatim is always found. |
| NoteListView.MatchesIgnoresQueryCase | src/components/Notes/NoteList.jsx:37-38 | An upper-case query and its lower-case form select the same notes. |
| NoteListView.MissingCharExcludes | src/components/Notes/NoteList.jsx:37-38 | A query with a character the text lacks is not found in it. |
| NoteListView.NoteList.constructor | src/components/Notes/NoteList.jsx:7-10 | The list starts with no notes, `loading` true, an empty query and no error. |
| NoteListView.NoteList.SetSearchQuery | src/components/Notes/NoteList.jsx:57 | Typing in the search box sets the query and nothing else. |
| NoteListView.NoteList.BeginFetch | src/components/Notes/NoteList.jsx:15-22 | Without a user, it clears `loading` and leaves the error as it was. With a user, it sets `loading` and clears the error before the call. |
| NoteListView.NoteList.EndFetch | src/components/Notes/NoteList.jsx:23-30 | On success, `notes` becomes the fetched list. On failure, the error becomes exactly 'Failed to load notes. Please try again.' and `notes` is untouched. `loading` ends false either way. |
| NoteListView.NoteList.FetchNotes | src/components/Notes/NoteList.jsx:14-31 | Without a user, no `getUserNotes` request is made and `notes` and `error` stay. With a user, exactly one request is made. Success leaves the owner's listing from the store with no error. Failure leaves the fixed error and the old notes. `loading` is false afterwards. |
| NoteListView.NoteList.RunEffect | src/components/Notes/NoteList.jsx:13-34 | The fetch runs exactly when the user or the refresh trigger differs from the previous run (always on the first), with the fetch's contract. Otherwise nothing changes. |
| NoteListView.NoteList.View | src/components/Notes/NoteList.jsx:41-114 | A spinner iff loading. Otherwise the error banner iff the error is non-empty, the empty-state panel iff there is no error and the filtered list is empty, and the cards are exactly the filtered notes. |
| NoteCardView.TruncateContent | src/components/Notes/NoteCard.jsx:41-44 | Content within the limit is returned unchanged. Longer content becomes its first `maxLength` characters followed by '...'. The result is never longer than the limit plus 3. |
| NoteCardView.TruncateCases | src/components/Notes/NoteCard.jsx:42-43 | Content within the limit is returned unchanged. Longer content gives exactly `maxLength + 3` characters: the content's first `maxLength`, then '...'. |
| NoteCardView.DisplayTitle | src/components/Notes/NoteCard.jsx:50 | Shows the title when it is present and non-empty, and 'Untitled Note' otherwise, so never an empty title. |
| NoteCardView.Preview | src/components/Notes/NoteCard.jsx:76 | With the default limit of 150 and missing content read as '', the preview never exceeds 153 characters. |
| NoteCardView.PreviewIsPrefix | src/components/Notes/NoteCard.jsx:41-44 | The preview is always a prefix of the content followed by nothing or by '...'. |
| NoteCardView.DateShown | src/components/Notes/NoteCard.jsx:81 | The date shown is `updatedAt` when set, else `createdAt`, else 'No date' (line 32). |
| NoteCardView.NoteCard.constructor | src/components/Notes/NoteCard.jsx:5 | A card starts not deleting, with no alert raised and no delete requested. |
| NoteCardView.NoteCard.HandleDelete | src/components/Notes/NoteCard.jsx:7-24 | Declined: no delete request, no callback, no alert, `isDeleting` unchanged. Confirmed: exactly one delete request and `isDeleting` false at the end. On success, the note is gone and the shell's `handleNoteDeleted` ran (trigger + 1, nothing else). On failure, the store and the shell are unchanged and the alert is raised. |
| DashboardView.Dashboard.constructor | src/components/Dashboard/Dashboard.jsx:7-10 | The shell starts on the notes tab, with no selected note, the form closed and the trigger at 0. |
| DashboardView.Dashboard.SelectTab | src/components/Dashboard/Dashboard.jsx:60-70 | A tab button sets the active tab and nothing else. |
| DashboardView.Dashboard.HandleCreateNote | src/components/Dashboard/Dashboard.jsx:12-15 | Clears the selection and opens the form. Tab and trigger are unchanged. |
| DashboardView.Dashboard.HandleEditNote | src/components/Dashboard/Dashboard.jsx:17-20 | Selects the note and opens the form. Tab and trigger are unchanged. |
| DashboardView.Dashboard.HandleCloseForm | src/components/Dashboard/Dashboard.jsx:22-25 | Closes the form and clears the selection. |
| DashboardView.Dashboard.HandleNoteSaved | src/components/Dashboard/Dashboard.jsx:27-30 | Closes the form, clears the selection and increments the trigger by exactly 1. The trigger stays equal to saves plus deletes, and a note is selected only while the form is open. |
| DashboardView.Dashboard.HandleNoteDeleted | src/components/Dashboard/Dashboard.jsx:32-34 | Increments the trigger by exactly 1 and changes nothing else. |
| Scenarios.DeleteThenRefresh | src/components/Notes/NoteCard.jsx:13-17 | A confirmed, successful delete bumps the shell's trigger. The list's next effect then re-fetches once and lists the owner's notes without the deleted one. |
| Scenarios.FailedDeleteKeepsList | src/components/Notes/NoteCard.jsx:18-20 | A failed delete raises the alert and leaves the store and the trigger alone, so the list does not re-fetch and keeps its notes. |
| SearchFacts.MilkInGroceries | src/components/Notes/NoteList.jsx:36-39 | The query "milk" is found in the content "milk eggs". |
| SearchFacts.MilkNotInWorkTitle | src/components/Notes/NoteList.jsx:36-39 | The query "milk" is not found in the title "Work". |
| SearchFacts.MilkNotInWorkContent | src/components/Notes/NoteList.jsx:36-39 | The query "milk" is not found in the content "meeting notes". |
| SearchFacts.UpperNotesIsNotes | src/components/Notes/NoteList.jsx:37-38 | "NOTES" lower-cases to "notes". |
| SearchFacts.NotesInWork | src/components/Notes/NoteList.jsx:36-39 | The query "NOTES" is found, ignoring case, in the content "meeting notes". |
| SearchFacts.NotesNotInGroceries | src/components/Notes/NoteList.jsx:36-39 | The query "NOTES" is found in neither "Groceries" nor "milk eggs". |

## Left out

- The Firestore SDK itself: network transport, the snapshot API, security rules, offline writes and their provisional null timestamps. The collection is a map, the query is `QueryByOwner`, and the server clock is a counter.
- NotesService.NoteStore.QueryByOwner: Firestore orders documents with equal `updatedAt` by document id. The model allows any order among such ties.
- Async interleaving: overlapping fetches whose stale answers land late, and concurrent writes racing at the store. Each call is one atomic step that succeeds or fails.
- NoteCardView.NoteCard.HandleDelete: `isDeleting` is true only while the delete call is in flight. The atomic model has no state in between, so it does not capture the button being disabled during a delete.
- `formatDate`'s calendar formatting (`toLocaleDateString`): it is locale behaviour. Only the choice of timestamp and the 'No date' branch are modelled (`DateShown`).
- `handleSummarize`: it only logs.
- `window.confirm`, `alert` and `console.error`. The confirmation is a boolean input, alerts are recorded in the ghost field `NoteCard.alerts`, and logging is dropped.
- NoteListView.LowerChar: lower-cases ASCII letters only, not full Unicode `toLowerCase`. String lengths count characters, not UTF-16 code units.
- DashboardView.Dashboard.HandleNoteSaved: `refreshTrigger` is an unbounded natural. JavaScript numbers lose precision past 2^53, which needs that many saves.
- The `embedding` vector: an external function fills it in. The model only sets it to null on create and otherwise leaves it alone.
- Titles and contents are always strings in the model. The list's search would throw on a note with no title. The card's `|| ''` and `|| 'Untitled Note'` fallbacks are modelled with optional inputs.
- The note list's unmounting: the shell renders the list only on the notes tab (Dashboard.jsx:84-92). Leaving that tab discards the list's state, and coming back mounts a fresh list, which is `NoteList`'s constructor followed by a first `RunEffect` that always fetches. `Dashboard.SelectTab` does not own a list, so the model does not tie the tab switch to that reset.
- JSX markup, CSS classes and SVG icons.
- `src/App.jsx` (route table), the note form, the AI chat, the layout, the authentication context and the Firebase configuration are not part of this model. The current user is the input `Option<UserId>`.
