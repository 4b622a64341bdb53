/** The add/edit dialog: a five-field form, a cover preview and the last image
    picked from the media library, driven by the `open` and `bookToEdit`
    props. Effects and handlers are pure functions; the picked image, the file
    reader's result and the outcome of the save request are inputs. */
module BookDialog {
  import opened Js

  /** The `bookToEdit` prop, with the fields the dialog reads. */
  datatype Book = Book(title: Value, author: Value, genre: Value, copies: Value, coverImage: Value)

  datatype Form = Form(title: Value, author: Value, genre: Value, copies: Value, coverImage: Value)

  /** The four fields the user fills in (the cover comes from an image). */
  datatype Field = Title | Author | Genre | Copies

  datatype DialogState = DialogState(form: Form, previewUrl: Value, tempImage: Value)

  /** Every field an empty string; `copies` too, unlike the catalog's draft. */
  const BlankForm: Form := Form(Str(""), Str(""), Str(""), Str(""), Str(""))

  /** The state on mount, before the props effect: blank, no preview, no
      picked image. */
  const Initial: DialogState := DialogState(BlankForm, Null, Null)

  const FillAllFields := "Please fill in all required fields"
  const BookUpdated := "Book updated successfully!"
  const BookAdded := "Book added successfully!"
  const SaveFailed := "Failed to save book. Please try again."

  /** What the save request produced: a parsed body after an ok status, a
      non-ok status, or an exception (transport or unparsable body). */
  datatype SaveResponse = Saved | SaveRejected | SaveThrew

  /** A submit's resulting state, the form it posted to the create endpoint
      (if any), the alert it showed and whether it asked to be closed. */
  datatype SubmitResult = SubmitResult(state: DialogState, posted: Option<Form>, alert: string, closeRequested: bool)

  function FormField(f: Form, field: Field): Value {
    match field
    case Title => f.title
    case Author => f.author
    case Genre => f.genre
    case Copies => f.copies
  }

  function BookField(b: Book, field: Field): Value {
    match field
    case Title => b.title
    case Author => b.author
    case Genre => b.genre
    case Copies => b.copies
  }

  /** The submit gate: all four fields truthy. */
  predicate Complete(f: Form) {
    Truthy(f.title) && Truthy(f.author) && Truthy(f.genre) && Truthy(f.copies)
  }

  /** The preview shows exactly the chosen cover, or nothing at all while the
      cover is the empty string. */
  predicate PreviewCoherent(s: DialogState) {
    s.previewUrl == s.form.coverImage || (s.previewUrl == Null && s.form.coverImage == Str(""))
  }

  function FormOf(b: Book): Form {
    Form(Or(b.title, Str("")), Or(b.author, Str("")), Or(b.genre, Str("")), Or(b.copies, Str("")), Or(b.coverImage, Str("")))
  }

  /** The props effect. With a book to edit the form becomes that book, each
      falsy field as `""` (a count of 0 included), and the preview its cover;
      with no book, closing resets the form and preview, and opening keeps
      them. The picked image is never touched. */
  function SyncWithProps(s: DialogState, open: bool, bookToEdit: Option<Book>): (r: DialogState)
    ensures r.tempImage == s.tempImage
    ensures bookToEdit.Some? ==>
      && (forall f :: Truthy(BookField(bookToEdit.value, f)) ==> FormField(r.form, f) == BookField(bookToEdit.value, f))
      && (forall f :: !Truthy(BookField(bookToEdit.value, f)) ==> FormField(r.form, f) == Str(""))
      && r.form.coverImage == r.previewUrl
      && (Truthy(bookToEdit.value.coverImage) ==> r.previewUrl == bookToEdit.value.coverImage)
      && (!Truthy(bookToEdit.value.coverImage) ==> r.previewUrl == Str(""))
    ensures bookToEdit.None? && !open ==> r.form == BlankForm && r.previewUrl == Null
    ensures bookToEdit.None? && open ==> r == s
    ensures bookToEdit.Some? || !open ==> PreviewCoherent(r)
    ensures PreviewCoherent(s) ==> PreviewCoherent(r)
  {
    match bookToEdit
    case Some(b) => s.(form := FormOf(b), previewUrl := Or(b.coverImage, Str("")))
    case None => if !open then s.(form := BlankForm, previewUrl := Null) else s
  }

  /** The picked-image effect: a truthy picked image becomes cover and
      preview; the four other fields are kept. */
  function ApplyTempImage(s: DialogState): (r: DialogState)
    ensures Truthy(s.tempImage) ==> r.form.coverImage == s.tempImage && r.previewUrl == s.tempImage
    ensures !Truthy(s.tempImage) ==> r == s
    ensures forall f :: FormField(r.form, f) == FormField(s.form, f)
    ensures r.tempImage == s.tempImage
    ensures PreviewCoherent(s) ==> PreviewCoherent(r)
  {
    if Truthy(s.tempImage) then s.(form := s.form.(coverImage := s.tempImage), previewUrl := s.tempImage) else s
  }

  /** An image chosen in the media library: it is remembered as the picked
      image and set as cover and preview at once; the effect then fires when
      the picked image changed. */
  function SelectFromLibrary(s: DialogState, url: Value): (r: DialogState)
    ensures r.form.coverImage == url && r.previewUrl == url && r.tempImage == url
    ensures forall f :: FormField(r.form, f) == FormField(s.form, f)
    ensures PreviewCoherent(r)
  {
    var t := s.(tempImage := url, form := s.form.(coverImage := url), previewUrl := url);
    if url != s.tempImage then ApplyTempImage(t) else t
  }

  /** A file chosen in the fallback file input, as the data URL its reader
      produced; `None` when no file was chosen, which changes nothing. */
  function LoadFile(s: DialogState, dataUrl: Option<Value>): (r: DialogState)
    ensures dataUrl.None? ==> r == s
    ensures dataUrl.Some? ==> r.form.coverImage == dataUrl.value && r.previewUrl == dataUrl.value
    ensures forall f :: FormField(r.form, f) == FormField(s.form, f)
    ensures r.tempImage == s.tempImage
    ensures PreviewCoherent(s) ==> PreviewCoherent(r)
  {
    match dataUrl
    case None => s
    case Some(d) => s.(previewUrl := d, form := s.form.(coverImage := d))
  }

  /** Typing into a field or choosing a genre: that field takes the text. */
  function SetField(s: DialogState, field: Field, text: string): (r: DialogState)
    ensures FormField(r.form, field) == Str(text)
    ensures forall g :: g != field ==> FormField(r.form, g) == FormField(s.form, g)
    ensures r.form.coverImage == s.form.coverImage
    ensures r.previewUrl == s.previewUrl && r.tempImage == s.tempImage
  {
    match field
    case Title => s.(form := s.form.(title := Str(text)))
    case Author => s.(form := s.form.(author := Str(text)))
    case Genre => s.(form := s.form.(genre := Str(text)))
    case Copies => s.(form := s.form.(copies := Str(text)))
  }

  /** The submit button. An incomplete form only raises the fill-in alert.
      Otherwise the whole form is posted to the create endpoint, whether or
      not a book is being edited; on success the dialog asks to be closed and
      resets form and preview (the picked image stays), with a message that is
      the only thing depending on `bookToEdit`. A failure alerts and keeps
      everything. */
  function Submit(s: DialogState, bookToEdit: Option<Book>, response: SaveResponse): (r: SubmitResult)
    ensures r.posted.None? <==> !Complete(s.form)
    ensures r.posted.Some? ==> r.posted.value == s.form
    ensures !Complete(s.form) ==> r.state == s && r.alert == FillAllFields && !r.closeRequested
    ensures Complete(s.form) && response.Saved? ==>
      && r.closeRequested
      && r.state.form == BlankForm && r.state.previewUrl == Null && r.state.tempImage == s.tempImage
      && r.alert == (if bookToEdit.Some? then BookUpdated else BookAdded)
    ensures Complete(s.form) && !response.Saved? ==>
      r.state == s && !r.closeRequested && r.alert == SaveFailed
    ensures PreviewCoherent(s) ==> PreviewCoherent(r.state)
  {
    if !Complete(s.form) then
      SubmitResult(s, None, FillAllFields, false)
    else if response.Saved? then
      var message := if bookToEdit.Some? then BookUpdated else BookAdded;
      SubmitResult(s.(form := BlankForm, previewUrl := Null), Some(s.form), message, true)
    else
      SubmitResult(s, Some(s.form), SaveFailed, false)
  }

  /** Submitting for an edit and for an add post the same form to the same
      endpoint with the same effect on the dialog: only the alert differs. */
  lemma SubmitIgnoresEditTarget(s: DialogState, b: Book, response: SaveResponse)
    ensures Submit(s, Some(b), response).posted == Submit(s, None, response).posted
    ensures Submit(s, Some(b), response).state == Submit(s, None, response).state
    ensures Submit(s, Some(b), response).closeRequested == Submit(s, None, response).closeRequested
    ensures Complete(s.form) && response.Saved? ==>
      Submit(s, Some(b), response).alert != Submit(s, None, response).alert
  {
  }

  /** The three ways an image arrives (the library callback, the picked-image
      effect, the file reader) leave the same form and preview. */
  lemma ImagePathsAgree(s: DialogState, url: Value)
    requires Truthy(url)
    ensures SelectFromLibrary(s, url).form == LoadFile(s, Some(url)).form
    ensures SelectFromLibrary(s, url).previewUrl == LoadFile(s, Some(url)).previewUrl
    ensures ApplyTempImage(s.(tempImage := url)).form == LoadFile(s, Some(url)).form
    ensures ApplyTempImage(s.(tempImage := url)).previewUrl == LoadFile(s, Some(url)).previewUrl
  {
  }

  /** Opening a book whose copy count is 0, or that has no genre, yields a
      form that cannot be submitted until those fields are filled in. */
  lemma FalsyBookFieldsBlockSubmit(s: DialogState, open: bool, b: Book, response: SaveResponse)
    requires !Truthy(b.copies) || !Truthy(b.genre)
    ensures Submit(SyncWithProps(s, open, Some(b)), Some(b), response).posted.None?
    ensures b.copies == Num(0) ==> SyncWithProps(s, open, Some(b)).form.copies == Str("")
  {
  }

  /** The props effect is idempotent: running it again for the same props
      changes nothing. */
  lemma SyncIdempotent(s: DialogState, open: bool, bookToEdit: Option<Book>)
    ensures SyncWithProps(SyncWithProps(s, open, bookToEdit), open, bookToEdit) == SyncWithProps(s, open, bookToEdit)
  {
  }
}
