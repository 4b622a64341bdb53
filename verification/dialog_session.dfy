/** Sessions of the dialog: the props its parent passes, the events the open
    dialog offers, and what every sequence of them keeps. */
module DialogSession {
  import opened Js
  import opened BookDialog

  /** The dialog's state together with its current props. */
  datatype Session = Session(dialog: DialogState, open: bool, bookToEdit: Option<Book>)

  datatype Event =
    | SetProps(open: bool, bookToEdit: Option<Book>)
    | Type(field: Field, text: string)
    | PickImage(url: Value)
    | PickFile(dataUrl: Option<Value>)
    | Save(response: SaveResponse)

  /** Mounting: the initial state, then the props effect; the picked-image
      effect has nothing to apply yet. */
  function Start(open: bool, bookToEdit: Option<Book>): Session {
    Session(ApplyTempImage(SyncWithProps(Initial, open, bookToEdit)), open, bookToEdit)
  }

  /** The parent may change the props at any time; the controls exist only
      while the dialog is open. */
  predicate Enabled(x: Session, e: Event) {
    e.SetProps? || x.open
  }

  /** The props effect runs only when a prop changed. A submit's close
      request is left to the parent, which answers with new props. */
  function Step(x: Session, e: Event): Session {
    match e
    case SetProps(open, b) =>
      if open == x.open && b == x.bookToEdit then x
      else Session(SyncWithProps(x.dialog, open, b), open, b)
    case Type(f, text) => x.(dialog := SetField(x.dialog, f, text))
    case PickImage(url) => x.(dialog := SelectFromLibrary(x.dialog, url))
    case PickFile(d) => x.(dialog := LoadFile(x.dialog, d))
    case Save(response) => x.(dialog := Submit(x.dialog, x.bookToEdit, response).state)
  }

  predicate Valid(x: Session, evs: seq<Event>)
    decreases |evs|
  {
    evs == [] || (Enabled(x, evs[0]) && Valid(Step(x, evs[0]), evs[1..]))
  }

  function Run(x: Session, evs: seq<Event>): Session
    decreases |evs|
  {
    if evs == [] then x else Run(Step(x, evs[0]), evs[1..])
  }

  /** A step and the rest of the run, for a non-empty sequence of events. */
  lemma Unfold(x: Session, e: Event, evs: seq<Event>)
    ensures Run(x, [e] + evs) == Run(Step(x, e), evs)
    ensures Valid(x, [e] + evs) <==> Enabled(x, e) && Valid(Step(x, e), evs)
  {
  }

  /** The preview matches the cover, and a dialog closed for adding holds a
      blank form without preview. */
  predicate Settled(x: Session) {
    && PreviewCoherent(x.dialog)
    && (!x.open && x.bookToEdit.None? ==> x.dialog.form == BlankForm && x.dialog.previewUrl == Null)
  }

  lemma StartSettled(open: bool, bookToEdit: Option<Book>)
    ensures Settled(Start(open, bookToEdit))
    ensures bookToEdit.None? ==> Start(open, bookToEdit).dialog == Initial
  {
  }

  lemma StepKeepsSettled(x: Session, e: Event)
    requires Settled(x) && Enabled(x, e)
    ensures Settled(Step(x, e))
  {
  }

  /** Every offered sequence of events keeps the dialog settled. */
  lemma {:induction false} RunKeepsSettled(x: Session, evs: seq<Event>)
    requires Settled(x) && Valid(x, evs)
    ensures Settled(Run(x, evs))
    decreases |evs|
  {
    if evs != [] {
      StepKeepsSettled(x, evs[0]);
      RunKeepsSettled(Step(x, evs[0]), evs[1..]);
    }
  }

  /** Hence a dialog closed for adding, whatever happened before, opens for
      adding with a blank form and no preview. */
  lemma {:induction false} AddDialogOpensBlank(open: bool, bookToEdit: Option<Book>, evs: seq<Event>)
    requires Valid(Start(open, bookToEdit), evs)
    requires !Run(Start(open, bookToEdit), evs).open && Run(Start(open, bookToEdit), evs).bookToEdit.None?
    ensures Step(Run(Start(open, bookToEdit), evs), SetProps(true, None)).dialog.form == BlankForm
    ensures Step(Run(Start(open, bookToEdit), evs), SetProps(true, None)).dialog.previewUrl == Null
  {
    StartSettled(open, bookToEdit);
    RunKeepsSettled(Start(open, bookToEdit), evs);
  }

  /** Closing does not reset while a book is still passed: if the parent
      clears the book only when it reopens the dialog, the add dialog shows the
      book edited before. */
  lemma ClosingWithBookKeepsItsData(b: Book)
    requires Truthy(b.title)
    ensures
      var evs := [SetProps(false, Some(b)), SetProps(true, None)];
      && Valid(Start(true, Some(b)), evs)
      && Run(Start(true, Some(b)), evs).bookToEdit.None?
      && Run(Start(true, Some(b)), evs).dialog.form == FormOf(b)
      && FormOf(b) != BlankForm
  {
    var x1 := Step(Start(true, Some(b)), SetProps(false, Some(b)));
    Unfold(x1, SetProps(true, None), []);
    Unfold(Start(true, Some(b)), SetProps(false, Some(b)), [SetProps(true, None)]);
    assert FormOf(b).title == b.title;
  }
}
