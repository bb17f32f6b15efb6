/**
 * The library page's state machine. The page owns five pieces of state
 * (`books`, `loading`, `error`, `deleteBook`, `editBook`) and the edit
 * dialog owns the draft `form`. Every handler is synchronous once each
 * `fetch` is split in two: the step that issues the request and a later
 * event that delivers its outcome. `Step` gives the new state for an event
 * and `Requests` the requests the event issues.
 */
module HomeState {
  import opened Records
  import opened EditModal

  datatype State = State(
    books: seq<Record>,
    loading: bool,
    error: string,
    deleteBook: Option<Record>,
    editBook: Option<Record>,
    form: Record)

  /** How the list request ends: JSON data, a status that is not ok, or a rejected promise. */
  datatype ListOutcome = Listed(data: seq<Record>) | HttpError | Rejected(message: string)

  /** How a DELETE or PUT ends: a response with any status, or a rejected promise. */
  datatype Settlement = Responded(status: int) | NetworkFailure(message: string)

  /** The requests the page sends to the book service. */
  datatype Request = GetBooks | Delete(id: Option<Value>) | Put(payload: Record)

  datatype Event =
    | Mounted                                          // the mount effect
    | ListSettled(outcome: ListOutcome)                // the list request ends
    | DeleteClicked(book: Record)                      // a card's delete button
    | DeleteCancelled                                  // the confirm dialog's Cancel
    | DeleteConfirmed                                  // the confirm dialog's Delete
    | DeleteSettled(result: Settlement)                // the DELETE request ends
    | EditClicked(book: Record)                        // a card's edit button
    | EditCancelled                                    // the edit dialog's close or Cancel
    | FieldChanged(input: Input, value: string, checked: bool)  // one form control changes
    | EditSubmitted                                    // the edit form submits
    | PutSettled(result: Settlement)                   // the PUT request ends

  const FetchFailedMessage: string := "Failed to fetch books."
  const FetchErrorFallback: string := "Error fetching books"

  /** The state before the mount effect runs. */
  function Initial(): (s: State)
    ensures s.books == [] && s.loading && s.error == ""
    ensures s.deleteBook == None && s.editBook == None && s.form == map[]
  {
    State([], true, "", None, None, Seed(None))
  }

  /** `ConfirmModal` renders iff `!!deleteBook`. */
  predicate ConfirmOpen(s: State): (open: bool)
    ensures open <==> s.deleteBook != None
  {
    s.deleteBook.Some?
  }

  /**
   * `EditModal` renders unless `!open || !book`, where the page passes
   * `open={!!editBook}` and `book={editBook}`; the two halves of the guard
   * agree, so the dialog is open exactly while a record is armed.
   */
  predicate EditOpen(s: State): (open: bool)
    ensures open <==> s.editBook != None
  {
    var isOpen, book := s.editBook.Some?, s.editBook;
    !(!isOpen || book.None?)
  }

  /** A card for `b` is on the page, so its edit and delete buttons can be clicked. */
  predicate CardShown(s: State, b: Record)
  {
    !s.loading && b in s.books
  }

  /** An event can happen: the control it comes from is rendered, and the browser lets the form submit. */
  predicate Enabled(s: State, e: Event)
  {
    match e
    case DeleteClicked(b) => CardShown(s, b)
    case EditClicked(b) => CardShown(s, b)
    case DeleteCancelled => ConfirmOpen(s)
    case DeleteConfirmed => ConfirmOpen(s)
    case EditCancelled => EditOpen(s)
    case FieldChanged(_, _, _) => EditOpen(s)
    case EditSubmitted => EditOpen(s) && Submittable(s.form)
    case _ => true
  }

  /** The events that call `fetchBooks`: the mount effect and a settled DELETE or PUT. */
  predicate StartsRefresh(e: Event)
  {
    e.Mounted?
    || (e.DeleteSettled? && e.result.Responded?)
    || (e.PutSettled? && e.result.Responded?)
  }

  /** The banner text after a failed list request: `err.message || "Error fetching books"`. */
  function FetchError(o: ListOutcome): (msg: string)
    requires !o.Listed?
    ensures msg != ""
    ensures o.HttpError? ==> msg == FetchFailedMessage
    ensures o.Rejected? && o.message != "" ==> msg == o.message
    ensures o.Rejected? && o.message == "" ==> msg == FetchErrorFallback
  {
    match o
    case HttpError => FetchFailedMessage
    case Rejected(m) => if m == "" then FetchErrorFallback else m
  }

  /** The synchronous part of `fetchBooks`. */
  function BeginRefresh(s: State): (r: State)
    ensures r.loading && r.error == ""
    ensures r.books == s.books && r.deleteBook == s.deleteBook
    ensures r.editBook == s.editBook && r.form == s.form
  {
    s.(loading := true, error := "")
  }

  /** The continuation of `fetchBooks` once the list request ends. */
  function SettleRefresh(s: State, o: ListOutcome): (r: State)
    ensures !r.loading
    ensures r.books == (if o.Listed? then o.data else s.books)
    ensures r.error == (if o.Listed? then s.error else FetchError(o))
    ensures r.deleteBook == s.deleteBook && r.editBook == s.editBook && r.form == s.form
  {
    match o
    case Listed(data) => s.(books := data, loading := false)
    case _ => s.(error := FetchError(o), loading := false)
  }

  /**
   * `setEditBook(t)`, together with the dialog's effect that reseeds the
   * draft whenever the armed record changes.
   */
  function SetEdit(s: State, t: Option<Record>): (r: State)
    ensures r.editBook == t
    ensures t != s.editBook ==> r.form == Seed(t)
    ensures t == s.editBook ==> r.form == s.form
    ensures r.books == s.books && r.loading == s.loading
    ensures r.error == s.error && r.deleteBook == s.deleteBook
  {
    if t == s.editBook then s else s.(editBook := t, form := Seed(t))
  }

  /** The state after an event; an event whose control is not rendered changes nothing. */
  function Step(s: State, e: Event): (r: State)
    ensures !Enabled(s, e) ==> r == s
    ensures r.deleteBook != s.deleteBook ==> e.DeleteClicked? || e.DeleteCancelled? || e.DeleteSettled?
    ensures r.editBook != s.editBook ==> e.EditClicked? || e.EditCancelled? || e.PutSettled?
    ensures r.books != s.books ==> e.ListSettled?
  {
    if !Enabled(s, e) then s
    else match e
      case Mounted => BeginRefresh(s)
      case ListSettled(o) => SettleRefresh(s, o)
      case DeleteClicked(b) => s.(deleteBook := Some(b))
      case DeleteCancelled => s.(deleteBook := None)
      case DeleteConfirmed => s
      case DeleteSettled(res) => if res.Responded? then BeginRefresh(s.(deleteBook := None)) else s
      case EditClicked(b) => SetEdit(s, Some(b))
      case EditCancelled => SetEdit(s, None)
      case FieldChanged(i, v, c) => s.(form := ChangeInput(s.form, i, v, c))
      case EditSubmitted => s
      case PutSettled(res) => if res.Responded? then BeginRefresh(SetEdit(s, None)) else s
  }

  /** The requests an event issues. */
  function Requests(s: State, e: Event): (r: seq<Request>)
    ensures |r| <= 1
    ensures GetBooks in r <==> StartsRefresh(e)
    ensures r != [] ==> StartsRefresh(e) || e.DeleteConfirmed? || e.EditSubmitted?
    ensures Enabled(s, e) && e.DeleteConfirmed? ==> r == [Delete(Lookup(s.deleteBook.value, "id"))]
    ensures Enabled(s, e) && e.EditSubmitted? ==> r == [Put(s.form)]
    ensures forall q :: q in r && q.Put? ==> EditOpen(s) && Submittable(q.payload)
    ensures forall q :: q in r && q.Delete? ==> ConfirmOpen(s)
  {
    if !Enabled(s, e) then []
    else match e
      case Mounted => [GetBooks]
      case DeleteConfirmed => [Delete(Lookup(s.deleteBook.value, "id"))]
      case DeleteSettled(res) => if res.Responded? then [GetBooks] else []
      case EditSubmitted => [Put(s.form)]
      case PutSettled(res) => if res.Responded? then [GetBooks] else []
      case _ => []
  }

  /** `loading` and `error` change only when a refresh starts or the list request ends. */
  lemma StepLoadingAndBanner(s: State, e: Event)
    ensures var r := Step(s, e);
            && (StartsRefresh(e) ==> r.loading && r.error == "")
            && (e.ListSettled? ==> !r.loading)
            && (e.ListSettled? && !e.outcome.Listed? ==> r.error == FetchError(e.outcome))
            && (!StartsRefresh(e) && !(e.ListSettled? && !e.outcome.Listed?) ==> r.error == s.error)
            && (!StartsRefresh(e) && !e.ListSettled? ==> r.loading == s.loading)
  {
  }

  /** The collection changes only to the data of a successful listing, taken as it is. */
  lemma StepBooks(s: State, e: Event)
    ensures Step(s, e).books == if e.ListSettled? && e.outcome.Listed? then e.outcome.data else s.books
  {
  }

  /**
   * The delete target is armed by a shown card, cleared by Cancel or by a
   * DELETE that got a response, and left alone by everything else.
   */
  lemma StepDeleteFlow(s: State, e: Event)
    ensures var r := Step(s, e);
            && (Enabled(s, e) && e.DeleteClicked? ==> r.deleteBook == Some(e.book))
            && (Enabled(s, e) && e.DeleteCancelled? ==> r.deleteBook == None)
            && (e.DeleteSettled? ==> r.deleteBook == if e.result.Responded? then None else s.deleteBook)
            && (!e.DeleteClicked? && !e.DeleteCancelled? && !e.DeleteSettled? ==> r.deleteBook == s.deleteBook)
  {
  }

  /**
   * The edit target is armed by a shown card, cleared by Cancel or by a PUT
   * that got a response; the draft is reseeded whenever the target changes
   * and otherwise changes only through a form control.
   */
  lemma StepEditFlow(s: State, e: Event)
    ensures var r := Step(s, e);
            && (Enabled(s, e) && e.EditClicked? ==> r.editBook == Some(e.book))
            && (Enabled(s, e) && e.EditCancelled? ==> r.editBook == None)
            && (e.PutSettled? ==> r.editBook == if e.result.Responded? then None else s.editBook)
            && (!e.EditClicked? && !e.EditCancelled? && !e.PutSettled? ==> r.editBook == s.editBook)
            && (r.editBook != s.editBook ==> r.form == Seed(r.editBook))
            && (Enabled(s, e) && e.FieldChanged? ==> r.form == ChangeInput(s.form, e.input, e.value, e.checked))
            && (r.editBook == s.editBook && !e.FieldChanged? ==> r.form == s.form)
  {
  }

  /** A gesture on a control that is not rendered, and a DELETE or PUT that rejects, change nothing. */
  lemma StepIgnored(s: State, e: Event)
    requires !Enabled(s, e) || ((e.DeleteSettled? || e.PutSettled?) && e.result.NetworkFailure?)
    ensures Step(s, e) == s
    ensures Requests(s, e) == []
  {
  }

  /**
   * The draft belongs to the armed record: empty while nothing is armed,
   * and carrying the armed record's `id` while something is.
   */
  predicate DraftMatchesTarget(s: State)
  {
    match s.editBook
    case None => s.form == map[]
    case Some(b) => Lookup(s.form, "id") == Lookup(b, "id")
  }

  lemma StepKeepsDraft(s: State, e: Event)
    requires DraftMatchesTarget(s)
    ensures DraftMatchesTarget(Step(s, e))
  {
  }
}
