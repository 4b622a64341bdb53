/** The catalog controller of the widget's main component: the list of books,
    the loading flag, the two form modes (adding, editing a row), the draft
    buffer and the error banner, with one pure function per event handler.
    Every handler runs as one atomic transition; the outcome of each network
    request and of the confirmation dialog is an input. */
module Catalog {
  import opened Js

  /** One record of the list response, with the fields the controller reads. */
  datatype Book = Book(id: Value, title: Value, author: Value, genre: Value, copies: Value)

  /** The draft buffer. Inputs store the text typed, so every field may hold
      a string, and `copies` starts out as the number 0. */
  datatype Draft = Draft(title: Value, author: Value, genre: Value, copies: Value)

  /** The four draft fields, one per input of the add form and of an edit row. */
  datatype Field = TitleField | AuthorField | GenreField | CopiesField

  datatype State = State(
    books: seq<Book>,
    loading: bool,
    isAdding: bool,
    editingId: Value,
    draft: Draft,
    error: Value)

  /** The draft the controller starts with and resets to. */
  const EmptyDraft: Draft := Draft(Str(""), Str(""), Str(""), Num(0))

  /** The state on mount: no books, the loading spinner, no mode, no error. */
  const Initial: State := State([], true, false, Null, EmptyDraft, Null)

  const FetchFailed := "Failed to fetch books"
  const CreateFailed := "Failed to create book"
  const UpdateFailed := "Failed to update book"
  const DeleteFailed := "Failed to delete book"

  /** What the list request produced: a parsed JSON body whose `data` is the
      list (`None` for a falsy body such as `null`), a non-ok status, or an
      exception (transport failure or unparsable body) with its message. */
  datatype ListResponse =
    | Listed(body: Option<seq<Book>>)
    | ListRejected
    | ListThrew(message: string)

  /** What a create, update or delete request produced. */
  datatype MutationResponse = Succeeded | Rejected | Threw(message: string)

  /** The requests the controller sends, with the JSON body they carry. */
  datatype Request =
    | ListBooks
    | CreateBook(body: Draft)
    | UpdateBook(id: Value, body: Draft)
    | DeleteBook(id: Value)

  /** A handler's resulting state and the requests it sent, in order. */
  datatype Transition = Transition(state: State, sent: seq<Request>)

  function FieldOf(d: Draft, f: Field): Value {
    match f
    case TitleField => d.title
    case AuthorField => d.author
    case GenreField => d.genre
    case CopiesField => d.copies
  }

  /** The validation gate of both save handlers: title and author truthy. */
  predicate DraftComplete(d: Draft) {
    Truthy(d.title) && Truthy(d.author)
  }

  /** The list a list response leaves in place of `current`. */
  function ListedBooks(current: seq<Book>, response: ListResponse): seq<Book> {
    if response.Listed? && response.body.Some? then response.body.value else current
  }

  /** The banner text of a failed mutation: the fixed message for a non-ok
      status, the exception's own message otherwise. */
  function FailureMessage(response: MutationResponse, rejected: string): Value
    requires !response.Succeeded?
  {
    if response.Rejected? then Str(rejected) else Str(response.message)
  }

  /** Loads the list. A parsed body replaces the list wholesale, in the order
      the server sent it, and clears the banner; a failure sets the banner and
      keeps the previous list. Loading is over in every case, and neither the
      modes nor the draft are touched. */
  function FetchBooks(s: State, response: ListResponse): (r: State)
    ensures !r.loading
    ensures r.isAdding == s.isAdding && r.editingId == s.editingId && r.draft == s.draft
    ensures response.Listed? && response.body.Some? ==> r.books == response.body.value
    ensures !(response.Listed? && response.body.Some?) ==> r.books == s.books
    ensures response.Listed? ==> r.error == Null
    ensures response.ListRejected? ==> r.error == Str(FetchFailed)
    ensures response.ListThrew? ==> r.error == Str(response.message)
  {
    match response
    case Listed(_) => s.(books := ListedBooks(s.books, response), loading := false, error := Null)
    case ListRejected => s.(loading := false, error := Str(FetchFailed))
    case ListThrew(message) => s.(loading := false, error := Str(message))
  }

  /** The "Add New Book" button: opens the add form. The draft is NOT reset,
      and an open edit row stays open. */
  function StartAdding(s: State): (r: State)
    ensures r.isAdding
    ensures r.draft == s.draft && r.editingId == s.editingId
    ensures r.books == s.books && r.loading == s.loading && r.error == s.error
  {
    s.(isAdding := true)
  }

  /** The add button is rendered only while neither mode is active, judged by
      the truthiness of the editing id. */
  predicate AddButtonShown(s: State) {
    !s.isAdding && !Truthy(s.editingId)
  }

  /** Typing into one input: that field takes the typed text, as a string,
      and nothing else changes. */
  function SetField(s: State, f: Field, text: string): (r: State)
    ensures FieldOf(r.draft, f) == Str(text)
    ensures forall g :: g != f ==> FieldOf(r.draft, g) == FieldOf(s.draft, g)
    ensures r.books == s.books && r.loading == s.loading && r.error == s.error
    ensures r.isAdding == s.isAdding && r.editingId == s.editingId
  {
    match f
    case TitleField => s.(draft := s.draft.(title := Str(text)))
    case AuthorField => s.(draft := s.draft.(author := Str(text)))
    case GenreField => s.(draft := s.draft.(genre := Str(text)))
    case CopiesField => s.(draft := s.draft.(copies := Str(text)))
  }

  /** Saves the add form. An incomplete draft is a silent no-op. Otherwise a
      create request carries the draft; on success the list is reloaded and,
      whatever the reload did, the draft is reset, the add form closes and the
      banner is cleared. On failure only the banner changes, so the user can
      retry with the same draft. */
  function HandleAdd(s: State, create: MutationResponse, refetch: ListResponse): (r: Transition)
    ensures !DraftComplete(s.draft) ==> r.state == s && r.sent == []
    ensures DraftComplete(s.draft) && create.Succeeded? ==>
      && r.sent == [CreateBook(s.draft), ListBooks]
      && r.state.books == ListedBooks(s.books, refetch)
      && !r.state.isAdding && r.state.editingId == s.editingId
      && r.state.draft == EmptyDraft && r.state.error == Null && !r.state.loading
    ensures DraftComplete(s.draft) && !create.Succeeded? ==>
      && r.sent == [CreateBook(s.draft)]
      && r.state == s.(error := FailureMessage(create, CreateFailed))
  {
    if !DraftComplete(s.draft) then
      Transition(s, [])
    else if create.Succeeded? then
      var t := FetchBooks(s, refetch);
      Transition(t.(draft := EmptyDraft, isAdding := false, error := Null), [CreateBook(s.draft), ListBooks])
    else
      Transition(s.(error := FailureMessage(create, CreateFailed)), [CreateBook(s.draft)])
  }

  /** The draft an edit row starts from: title and author as stored, a falsy
      genre as `""` and a falsy copy count as `0`. */
  function DraftOf(b: Book): Draft {
    Draft(b.title, b.author, Or(b.genre, Str("")), Or(b.copies, Num(0)))
  }

  /** The Edit button of a row: that row enters edit mode with a draft taken
      from the book alone. The add flag, the list and the banner are kept. */
  function HandleEdit(s: State, book: Book): (r: State)
    ensures r.editingId == book.id
    ensures r.draft.title == book.title && r.draft.author == book.author
    ensures Truthy(book.genre) ==> r.draft.genre == book.genre
    ensures !Truthy(book.genre) ==> r.draft.genre == Str("")
    ensures Truthy(book.copies) ==> r.draft.copies == book.copies
    ensures !Truthy(book.copies) ==> r.draft.copies == Num(0)
    ensures r.isAdding == s.isAdding && r.books == s.books
    ensures r.loading == s.loading && r.error == s.error
  {
    s.(editingId := book.id, draft := DraftOf(book))
  }

  /** Saves the edit row. The same gate as adding; the update request is
      addressed by the current editing id and carries the draft. On success the
      list is reloaded and the row leaves edit mode with a reset draft and no
      banner; on failure only the banner changes. */
  function HandleUpdate(s: State, update: MutationResponse, refetch: ListResponse): (r: Transition)
    ensures !DraftComplete(s.draft) ==> r.state == s && r.sent == []
    ensures DraftComplete(s.draft) && update.Succeeded? ==>
      && r.sent == [UpdateBook(s.editingId, s.draft), ListBooks]
      && r.state.books == ListedBooks(s.books, refetch)
      && r.state.editingId == Null && r.state.isAdding == s.isAdding
      && r.state.draft == EmptyDraft && r.state.error == Null && !r.state.loading
    ensures DraftComplete(s.draft) && !update.Succeeded? ==>
      && r.sent == [UpdateBook(s.editingId, s.draft)]
      && r.state == s.(error := FailureMessage(update, UpdateFailed))
  {
    if !DraftComplete(s.draft) then
      Transition(s, [])
    else if update.Succeeded? then
      var t := FetchBooks(s, refetch);
      Transition(t.(editingId := Null, draft := EmptyDraft, error := Null), [UpdateBook(s.editingId, s.draft), ListBooks])
    else
      Transition(s.(error := FailureMessage(update, UpdateFailed)), [UpdateBook(s.editingId, s.draft)])
  }

  /** The Delete button of a row. A declined confirmation sends nothing and
      changes nothing. Otherwise a delete request is sent; success reloads the
      list and clears the banner, failure sets the banner. The list is never
      edited locally, and modes and draft are kept in every case. */
  function HandleDelete(s: State, id: Value, confirmed: bool, delete: MutationResponse, refetch: ListResponse): (r: Transition)
    ensures !confirmed ==> r.state == s && r.sent == []
    ensures r.state.isAdding == s.isAdding && r.state.editingId == s.editingId && r.state.draft == s.draft
    ensures confirmed && delete.Succeeded? ==>
      && r.sent == [DeleteBook(id), ListBooks]
      && r.state.books == ListedBooks(s.books, refetch)
      && r.state.error == Null && !r.state.loading
    ensures confirmed && !delete.Succeeded? ==>
      && r.sent == [DeleteBook(id)]
      && r.state == s.(error := FailureMessage(delete, DeleteFailed))
  {
    if !confirmed then
      Transition(s, [])
    else if delete.Succeeded? then
      Transition(FetchBooks(s, refetch).(error := Null), [DeleteBook(id), ListBooks])
    else
      Transition(s.(error := FailureMessage(delete, DeleteFailed)), [DeleteBook(id)])
  }

  /** The Cancel button of either form: both modes end, the draft is reset and
      the banner cleared, without any request; the list is kept. */
  function HandleCancel(s: State): (r: State)
    ensures !r.isAdding && r.editingId == Null
    ensures r.draft == EmptyDraft && r.error == Null
    ensures r.books == s.books && r.loading == s.loading
    ensures AddButtonShown(r)
  {
    s.(isAdding := false, editingId := Null, draft := EmptyDraft, error := Null)
  }

  /** Cancelling twice is cancelling once. */
  lemma CancelIdempotent(s: State)
    ensures HandleCancel(HandleCancel(s)) == HandleCancel(s)
  {
  }

  /** Cancel undoes entering either mode: nothing of the edit or of opening
      the add form survives it. */
  lemma CancelUndoesModes(s: State, book: Book)
    ensures HandleCancel(HandleEdit(s, book)) == HandleCancel(s)
    ensures HandleCancel(StartAdding(s)) == HandleCancel(s)
  {
  }

  /** Editing B while A is being edited switches straight to B: the draft is
      B's, with nothing of A's draft merged in. */
  lemma EditSwitchesWithoutMerge(s: State, a: Book, b: Book)
    ensures HandleEdit(HandleEdit(s, a), b) == HandleEdit(s, b)
    ensures HandleEdit(HandleEdit(s, a), b).draft == DraftOf(b)
  {
  }

  /** A failed create keeps the add form and the draft, so retrying sends the
      very same create request. */
  lemma FailedCreateCanBeRetried(s: State, first: MutationResponse, again: MutationResponse, l1: ListResponse, l2: ListResponse)
    requires DraftComplete(s.draft) && !first.Succeeded?
    ensures HandleAdd(s, first, l1).state.isAdding == s.isAdding
    ensures HandleAdd(s, first, l1).state.draft == s.draft
    ensures HandleAdd(HandleAdd(s, first, l1).state, again, l2).sent[0] == CreateBook(s.draft)
  {
  }

  /** Saving right after Edit updates that book: the request is addressed by
      the book's id and carries the draft taken from it. */
  lemma UpdateAfterEditTargetsBook(s: State, b: Book, update: MutationResponse, refetch: ListResponse)
    requires Truthy(b.title) && Truthy(b.author)
    ensures HandleUpdate(HandleEdit(s, b), update, refetch).sent[0] == UpdateBook(b.id, DraftOf(b))
  {
  }

  /** A successful mutation leaves no banner even when its reload failed: the
      reload's error is overwritten. */
  lemma ReloadErrorIsOverwritten(s: State, id: Value, m: string)
    requires DraftComplete(s.draft)
    ensures HandleAdd(s, Succeeded, ListThrew(m)).state.error == Null
    ensures HandleUpdate(s, Succeeded, ListRejected).state.error == Null
    ensures HandleDelete(s, id, true, Succeeded, ListThrew(m)).state.error == Null
    ensures HandleAdd(s, Succeeded, ListThrew(m)).state.books == s.books
  {
  }
}
