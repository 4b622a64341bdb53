/** Sessions of the catalog controller: the user events the rendered page
    offers in a given state, traces of such events from the mount state, and
    the invariants every trace keeps. */
module CatalogSession {
  import opened Js
  import opened Catalog

  /** One user event or effect, carrying the outcomes of the requests and of
      the confirmation dialog it involves. */
  datatype Event =
    | MountFetch(list: ListResponse)
    | AddNewBook
    | EditRow(book: Book)
    | Input(field: Field, text: string)
    | SaveNew(create: MutationResponse, refetch: ListResponse)
    | SaveEdit(update: MutationResponse, refetch: ListResponse)
    | DeleteRow(id: Value, confirmed: bool, delete: MutationResponse, refetch: ListResponse)
    | Cancel

  /** Some row of the list is the one in edit mode (strict equality of ids). */
  predicate HasEditingRow(s: State) {
    exists i :: 0 <= i < |s.books| && s.books[i].id == s.editingId
  }

  /** Some row that is not in edit mode shows this id's Edit and Delete buttons. */
  predicate HasPlainRow(s: State, id: Value) {
    id != s.editingId && exists i :: 0 <= i < |s.books| && s.books[i].id == id
  }

  /** What the page offers. While loading only the spinner is rendered, so the
      mount fetch is the only thing that can happen; afterwards the add button
      follows its guard, each row not in edit mode has Edit and Delete, and the
      inputs, Save and Cancel belong to the add form or to the edit row. */
  predicate Enabled(s: State, e: Event) {
    match e
    case MountFetch(_) => s.loading
    case AddNewBook => !s.loading && AddButtonShown(s)
    case EditRow(b) => !s.loading && b in s.books && HasPlainRow(s, b.id)
    case Input(_, _) => !s.loading && (s.isAdding || HasEditingRow(s))
    case SaveNew(_, _) => !s.loading && s.isAdding
    case SaveEdit(_, _) => !s.loading && HasEditingRow(s)
    case DeleteRow(id, _, _, _) => !s.loading && HasPlainRow(s, id)
    case Cancel => !s.loading && (s.isAdding || HasEditingRow(s))
  }

  function Step(s: State, e: Event): State {
    match e
    case MountFetch(list) => FetchBooks(s, list)
    case AddNewBook => StartAdding(s)
    case EditRow(b) => HandleEdit(s, b)
    case Input(f, text) => SetField(s, f, text)
    case SaveNew(create, refetch) => HandleAdd(s, create, refetch).state
    case SaveEdit(update, refetch) => HandleUpdate(s, update, refetch).state
    case DeleteRow(id, confirmed, delete, refetch) => HandleDelete(s, id, confirmed, delete, refetch).state
    case Cancel => HandleCancel(s)
  }

  /** Every event of the sequence is offered when it happens. */
  predicate Valid(s: State, evs: seq<Event>)
    decreases |evs|
  {
    evs == [] || (Enabled(s, evs[0]) && Valid(Step(s, evs[0]), evs[1..]))
  }

  function Run(s: State, evs: seq<Event>): State
    decreases |evs|
  {
    if evs == [] then s else Run(Step(s, evs[0]), evs[1..])
  }

  /** A step and the rest of the run, for a non-empty sequence of events. */
  lemma Unfold(s: State, e: Event, evs: seq<Event>)
    ensures Run(s, [e] + evs) == Run(Step(s, e), evs)
    ensures Valid(s, [e] + evs) <==> Enabled(s, e) && Valid(Step(s, e), evs)
  {
  }

  /** The list response that reached the controller during an event: the
      mount fetch always, a save or a delete only when its handler sent the
      list request. */
  function Fetched(s: State, e: Event): Option<ListResponse> {
    match e
    case MountFetch(l) => Some(l)
    case SaveNew(c, l) => if ListBooks in HandleAdd(s, c, l).sent then Some(l) else None
    case SaveEdit(u, l) => if ListBooks in HandleUpdate(s, u, l).sent then Some(l) else None
    case DeleteRow(id, ok, d, l) => if ListBooks in HandleDelete(s, id, ok, d, l).sent then Some(l) else None
    case _ => None
  }

  /** The list body a fetched response delivers, if any. */
  function Delivered(r: Option<ListResponse>): Option<seq<Book>> {
    if r.Some? && r.value.Listed? && r.value.body.Some? then Some(r.value.body.value) else None
  }

  /** The last list body the server delivered during a run, if any. */
  function LatestList(s: State, evs: seq<Event>): Option<seq<Book>>
    decreases |evs|
  {
    if evs == [] then None
    else match LatestList(Step(s, evs[0]), evs[1..])
      case Some(l) => Some(l)
      case None => Delivered(Fetched(s, evs[0]))
  }

  function Carried(l: ListResponse): set<seq<Book>> {
    if l.Listed? && l.body.Some? then {l.body.value} else {}
  }

  /** The list bodies an event carries, used or not. */
  function ListsIn(e: Event): set<seq<Book>> {
    match e
    case MountFetch(l) => Carried(l)
    case SaveNew(_, l) => Carried(l)
    case SaveEdit(_, l) => Carried(l)
    case DeleteRow(_, _, _, l) => Carried(l)
    case _ => {}
  }

  predicate IdsTruthy(books: seq<Book>) {
    forall i :: 0 <= i < |books| ==> Truthy(books[i].id)
  }

  /** Every list body these events carry has truthy ids only. */
  predicate ServesTruthyIds(evs: seq<Event>) {
    forall i, l :: 0 <= i < |evs| && l in ListsIn(evs[i]) ==> IdsTruthy(l)
  }

  /** While the add button is offered, the draft is the empty one, so the add
      form opens empty although opening it does not reset the draft. */
  predicate DraftEmptyWhenAddOffered(s: State) {
    IdsTruthy(s.books) && (AddButtonShown(s) ==> s.draft == EmptyDraft)
  }

  /** On mount only the fetch can happen, and the mount state keeps the
      invariant. */
  lemma InitialOffersOnlyFetch(e: Event)
    ensures Enabled(Initial, e) <==> e.MountFetch?
    ensures DraftEmptyWhenAddOffered(Initial)
  {
  }

  /** No event edits the list locally: after it the list is the body the
      list request delivered during the event, if it was sent and delivered
      one, and otherwise the list before. */
  lemma StepFollowsFetch(s: State, e: Event)
    ensures Step(s, e).books ==
      (if Delivered(Fetched(s, e)).Some? then Delivered(Fetched(s, e)).value else s.books)
  {
  }

  /** Across any sequence of events the list is the last body the server
      delivered, or the starting list when none was delivered. */
  lemma {:induction false} RunFollowsLatestList(s: State, evs: seq<Event>)
    ensures Run(s, evs).books == (if LatestList(s, evs).Some? then LatestList(s, evs).value else s.books)
    decreases |evs|
  {
    if evs != [] {
      StepFollowsFetch(s, evs[0]);
      RunFollowsLatestList(Step(s, evs[0]), evs[1..]);
    }
  }

  /** With truthy ids from the server, one offered event keeps the draft
      empty while the add button is offered. */
  lemma StepKeepsDraftEmpty(s: State, e: Event)
    requires DraftEmptyWhenAddOffered(s) && Enabled(s, e)
    requires forall l :: l in ListsIn(e) ==> IdsTruthy(l)
    ensures DraftEmptyWhenAddOffered(Step(s, e))
  {
  }

  /** As long as the server only sends truthy ids, every offered sequence of
      events keeps the draft empty while the add button is offered. */
  lemma {:induction false} RunKeepsDraftEmpty(s: State, evs: seq<Event>)
    requires DraftEmptyWhenAddOffered(s) && Valid(s, evs) && ServesTruthyIds(evs)
    ensures DraftEmptyWhenAddOffered(Run(s, evs))
    decreases |evs|
  {
    if evs != [] {
      assert forall l :: l in ListsIn(evs[0]) ==> IdsTruthy(l) by {
        forall l | l in ListsIn(evs[0]) ensures IdsTruthy(l) {
          assert 0 < |evs| && l in ListsIn(evs[0]);
        }
      }
      StepKeepsDraftEmpty(s, evs[0]);
      assert ServesTruthyIds(evs[1..]) by {
        forall i, l | 0 <= i < |evs[1..]| && l in ListsIn(evs[1..][i]) ensures IdsTruthy(l) {
          assert evs[1..][i] == evs[i + 1];
        }
      }
      RunKeepsDraftEmpty(Step(s, evs[0]), evs[1..]);
    }
  }

  /** Hence the add form always opens with the empty draft. */
  lemma {:induction false} AddFormOpensEmpty(evs: seq<Event>)
    requires Valid(Initial, evs) && ServesTruthyIds(evs)
    requires Enabled(Run(Initial, evs), AddNewBook)
    ensures Step(Run(Initial, evs), AddNewBook).draft == EmptyDraft
  {
    InitialOffersOnlyFetch(AddNewBook);
    RunKeepsDraftEmpty(Initial, evs);
  }

  /** The add guard tests the editing id for truthiness: editing a book whose
      id is 0 leaves the add button offered with that book's draft, and
      opening the add form then shows the book's fields. */
  lemma ZeroIdKeepsAddOffered()
    ensures
      var b := Book(Num(0), Str("1984"), Str("Orwell"), Undefined, Num(2));
      var evs := [MountFetch(Listed(Some([b]))), EditRow(b)];
      && Valid(Initial, evs)
      && Enabled(Run(Initial, evs), AddNewBook)
      && Step(Run(Initial, evs), AddNewBook).draft == DraftOf(b)
      && DraftOf(b) != EmptyDraft
  {
    var b := Book(Num(0), Str("1984"), Str("Orwell"), Undefined, Num(2));
    var s1 := Step(Initial, MountFetch(Listed(Some([b]))));
    assert s1.books[0] == b;
    Unfold(s1, EditRow(b), []);
    Unfold(Initial, MountFetch(Listed(Some([b]))), [EditRow(b)]);
  }

  /** Adding and editing are not exclusive: with the add form open, the Edit
      button of a row still works, and both forms then share one draft. */
  lemma AddingAndEditingCoexist()
    ensures
      var b := Book(Num(1), Str("1984"), Str("Orwell"), Undefined, Num(2));
      var evs := [MountFetch(Listed(Some([b]))), AddNewBook, EditRow(b)];
      && Valid(Initial, evs)
      && Run(Initial, evs).isAdding
      && Run(Initial, evs).editingId == Num(1)
      && HasEditingRow(Run(Initial, evs))
  {
    var b := Book(Num(1), Str("1984"), Str("Orwell"), Undefined, Num(2));
    var s1 := Step(Initial, MountFetch(Listed(Some([b]))));
    assert s1.books[0] == b;
    var s2 := Step(s1, AddNewBook);
    assert Step(s2, EditRow(b)).books[0].id == Num(1);
    Unfold(s2, EditRow(b), []);
    Unfold(s1, AddNewBook, [EditRow(b)]);
    Unfold(Initial, MountFetch(Listed(Some([b]))), [AddNewBook, EditRow(b)]);
  }
}
