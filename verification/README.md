# Book catalog widget: a Dafny model of its two UI state machines

The widget lists the books of a library catalog and lets the user create,
edit and delete them against a REST backend of the host platform. Its logic
lives in two React components:

- the **catalog controller** (`App`): the list of books, a loading flag, an
  add form, one row in edit mode at a time, a draft buffer shared by both forms
  and an error banner;
- the **add/edit dialog** (`AddBookDialog`): a five-field form with a cover
  image, synchronised with its `open` and `bookToEdit` props.

Each event handler and each effect is modelled as one atomic, pure transition
on an immutable state record. The outcome of every network request (a parsed
body, a non-ok status, or an exception with its message) and the answer of the
confirmation dialog are inputs of the transition. Handlers also return the
requests they sent, so "no request is sent" can be stated. JavaScript values
are modelled explicitly (`Js.Value`), with JavaScript truthiness: `""`, `0`,
`null`, `undefined` and `false` are falsy. A draft's `copies` holds the number
`0` at first and the typed string after an edit.

Files:

- `js.dfy`: JavaScript values, truthiness, and `||` used for defaulting.
- `catalog.dfy`: the controller state and its handlers, with one-call
  contracts and the lemmas that relate several handlers.
- `catalog_session.dfy`: which events the rendered page offers in each
  state, traces of events from mount, and the invariants they keep.
- `book_dialog.dfy`: the dialog state, its effects and its handlers.
- `dialog_session.dfy`: props changes and dialog events as traces, and the
  invariants they keep.

Facts the model settles:

- Adding and editing can be active together. Only the add button is guarded;
  every row's Edit button keeps working while the add form is open
  (`CatalogSession.AddingAndEditingCoexist`).
- Opening the add form does not reset the draft. The draft is nevertheless
  always empty when the button is offered, provided the server's ids are
  truthy (`CatalogSession.AddFormOpensEmpty`). The guard tests the editing id
  for truthiness, so editing a book whose id is `0` leaves the button offered
  with that book's draft (`CatalogSession.ZeroIdKeepsAddOffered`).
- The list-fetch helper catches its own errors. A successful create, update or
  delete therefore ends with no banner even when the reload that followed it
  failed (`Catalog.ReloadErrorIsOverwritten`).
- The dialog always posts to the create endpoint, also when a book is being
  edited. Only the success alert depends on `bookToEdit`
  (`BookDialog.SubmitIgnoresEditTarget`).
- The dialog resets on close only when no book is passed. If the parent
  clears the book only when it reopens the dialog, the add dialog shows the
  book edited before (`DialogSession.ClosingWithBookKeepsItsData`).

Three behaviours of the code are worth stating plainly:

- Opening the add form only sets the add flag. It does not reset the draft
  (src/App.jsx:173).
- A failed list fetch keeps the previous list (src/App.jsx:42-48).
- Edit and Delete are rendered on every row not in edit mode, whatever the
  mode (src/App.jsx:380-395).

## Model

| member | source | states |
|---|---|---|
| `Catalog.FetchBooks` | src/App.jsx:33-53 | a parsed body replaces the list wholesale in server order and clears the banner; a falsy body keeps the list; a non-ok status or an exception sets the banner (fixed text or the exception's message) and keeps the list; loading is false afterwards; modes and draft are untouched |
| `Catalog.StartAdding` | src/App.jsx:171-173 | "Add New Book" turns the add form on and keeps the draft, the editing id, the list and the banner as they were |
| `Catalog.SetField` | src/App.jsx:199-234 | typing into an input stores the typed text, as a string, in that one draft field; the other fields, modes, list and banner are unchanged |
| `Catalog.HandleAdd` | src/App.jsx:55-78 | empty title or author: no request and no state change. Otherwise a create request carries the draft. Success reloads the list, resets the draft, closes the add form and clears the banner whatever the reload did. Failure only sets the banner, keeping mode and draft |
| `Catalog.HandleEdit` | src/App.jsx:80-88 | the row's id becomes the editing id; the draft takes title and author as stored, genre or `""`, copies or `0`; the add flag, list, banner and loading flag are unchanged |
| `Catalog.HandleUpdate` | src/App.jsx:90-113 | same gate as adding; the update request is addressed by the current editing id and carries the draft; success reloads, clears the editing id, resets the draft and clears the banner; failure only sets the banner |
| `Catalog.HandleDelete` | src/App.jsx:115-134 | declined confirmation: no request, no change. Otherwise a delete request for the id is sent. Success reloads the list and clears the banner; failure only sets the banner. Mode and draft are kept in every case |
| `Catalog.HandleCancel` | src/App.jsx:136-141 | both modes end, the draft is the default one and the banner is cleared, the list is kept, and the add button is offered again |
| `Catalog.CancelIdempotent` | src/App.jsx:136-141 | cancelling twice is the same as cancelling once |
| `Catalog.CancelUndoesModes` | src/App.jsx:136-141 | cancel after Edit, or after opening the add form, gives the same state as cancel alone |
| `Catalog.EditSwitchesWithoutMerge` | src/App.jsx:80-88 | editing B while A is edited gives exactly the state of editing B directly, with B's draft and nothing of A's |
| `Catalog.FailedCreateCanBeRetried` | src/App.jsx:67-76 | after a failed create the add flag and draft are unchanged, so saving again sends the same create request |
| `Catalog.UpdateAfterEditTargetsBook` | src/App.jsx:80-100 | saving right after Edit sends an update addressed by that book's id and carrying the draft built from it |
| `Catalog.ReloadErrorIsOverwritten` | src/App.jsx:44-72 | a successful create, update or delete ends with no banner even when its reload failed, and a failed reload keeps the list |
| `CatalogSession.InitialOffersOnlyFetch` | src/App.jsx:13-31 | in the mount state (loading spinner, empty list, no mode, default draft, no banner) the mount fetch is the only possible event, and the draft invariant holds |
| `CatalogSession.StepFollowsFetch` | src/App.jsx:33-53 | no event edits the list locally: afterwards it is the body delivered by the list request of that event, when the event sent one and a body came back, and otherwise the list before; a declined delete or a blocked or failed save leaves the list alone |
| `CatalogSession.RunFollowsLatestList` | src/App.jsx:44-46 | across any sequence of events the list is the last body the server delivered, or the starting list when none was delivered |
| `CatalogSession.StepKeepsDraftEmpty` | src/App.jsx:171-173 | with truthy server ids, every offered event keeps the draft empty whenever the add button is offered |
| `CatalogSession.RunKeepsDraftEmpty` | src/App.jsx:171-173 | the same invariant holds across every offered sequence of events |
| `CatalogSession.AddFormOpensEmpty` | src/App.jsx:171-173 | from mount, when every list the server sends has truthy ids, whenever "Add New Book" is offered the add form opens with the default draft, though opening does not reset it |
| `CatalogSession.ZeroIdKeepsAddOffered` | src/App.jsx:171 | after editing a book whose id is `0`, the add button is still offered and the add form would show that book's draft |
| `CatalogSession.AddingAndEditingCoexist` | src/App.jsx:380-387 | an offered trace reaches a state where the add form is open and a row is in edit mode at the same time |
| `BookDialog.SyncWithProps` | src/components/AddBookDialog.jsx:26-47 | with a book, the four fields are the book's truthy values or `""` and cover and preview are the cover or `""`; with no book, closing blanks the form and clears the preview and opening changes nothing; the picked image is kept |
| `BookDialog.ApplyTempImage` | src/components/AddBookDialog.jsx:49-56 | a truthy picked image becomes cover and preview, a falsy one changes nothing; the four fields are kept |
| `BookDialog.SelectFromLibrary` | src/components/AddBookDialog.jsx:74-88 | a library image becomes the picked image, the cover and the preview; the four fields are kept |
| `BookDialog.LoadFile` | src/components/AddBookDialog.jsx:97-107 | a loaded file's data URL becomes cover and preview, no file changes nothing; the four fields and the picked image are kept |
| `BookDialog.SetField` | src/components/AddBookDialog.jsx:173-234 | an input or the genre select stores the text in that one field; cover, preview and picked image are unchanged |
| `BookDialog.Submit` | src/components/AddBookDialog.jsx:109-153 | a form is posted iff all four fields are truthy, and what is posted is the whole form. An incomplete form alerts and changes nothing. Success asks to close and blanks form and preview, with an added or updated message. Failure alerts and keeps everything |
| `BookDialog.SubmitIgnoresEditTarget` | src/components/AddBookDialog.jsx:117-132 | edit and add submits post the same form and leave the same state and close request; on success only their alerts differ |
| `BookDialog.ImagePathsAgree` | src/components/AddBookDialog.jsx:50-104 | the library callback, the picked-image effect and the file reader leave the same form and preview for the same image |
| `BookDialog.FalsyBookFieldsBlockSubmit` | src/components/AddBookDialog.jsx:28-115 | a book with copy count 0 or no genre opens with `""` there, and the dialog then refuses to submit |
| `BookDialog.SyncIdempotent` | src/components/AddBookDialog.jsx:26-47 | running the props effect again for the same props changes nothing |
| `DialogSession.StartSettled` | src/components/AddBookDialog.jsx:16-47 | the mounted dialog has its preview matching its cover and, without a book, is the blank initial state |
| `DialogSession.StepKeepsSettled` | src/components/AddBookDialog.jsx:26-153 | every offered event keeps the preview matching the cover, and keeps the form blank while the dialog is closed for adding |
| `DialogSession.RunKeepsSettled` | src/components/AddBookDialog.jsx:26-153 | the same holds across every offered sequence of props changes and dialog events |
| `DialogSession.AddDialogOpensBlank` | src/components/AddBookDialog.jsx:36-46 | whatever happened before, a dialog closed for adding opens for adding with a blank form and no preview |
| `DialogSession.ClosingWithBookKeepsItsData` | src/components/AddBookDialog.jsx:26-47 | closing while a book is passed and then opening for adding shows that book's fields, not a blank form |

## Left out

- Network I/O (`fetch`, headers, the nonce, JSON parsing) and the host
  configuration `window.wpReactData` are not modelled. Each request's outcome
  is an input, and a request is identified by its kind, id and body, not by
  its URL text.
- The browser dialogs are not modelled as such. `confirm` is a boolean input.
  The dialog's `alert` texts are recorded in the submit result, and the
  controller raises no alert.
- The external image providers (`wp.media`, `FileReader`, and the click on
  the hidden file input) are not modelled. The choice in `openMediaLibrary`
  between the library and the file input is left out; both of its outcomes
  are modelled (`SelectFromLibrary`, `LoadFile`).
- Asynchronous interleaving is not modelled: each handler is atomic. So are
  stale closures, such as the file reader writing the form captured when the
  file was picked, and the transient loading spinner during a reload inside a
  save.
- React compares effect dependencies by reference. The model compares props by
  value.
- JavaScript numbers are integers here. Floats, `NaN`, and objects or arrays
  in book fields are left out. A truthy list body without a `data` array is
  left out as well: the code would store `undefined` and then fail to render.
- The dialog's call of `window.refreshBooksList` after a successful save is a
  host callback and is not part of this model.
- Rendering, styling, icons and logging are not modelled: the table, the
  empty-list message, the `"N/A"` genre, the book count and the titles.
- `src/components/BooksTable.jsx` (rendering plus a fetch; its delete only
  logs), `src/main.jsx` (mounting) and `vite.config.js` (build configuration)
  are not part of this model.
