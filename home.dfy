/**
 * The `Home` page component as an object whose handlers update its state
 * one setter at a time. Each handler, and each continuation that runs when
 * a request ends, is a method; its contract ties the new state to the
 * `Step` of the matching event and the requests it sends to `Requests`.
 * The ghost field `sent` records every request issued and `inFlight` those
 * not yet ended, so that a completion is only delivered for a request that
 * was sent.
 */
module HomeController {
  import opened Records
  import opened EditModal
  import opened HomeState

  class Home {
    var books: seq<Record>
    var loading: bool
    var error: string
    var deleteBook: Option<Record>
    var editBook: Option<Record>
    var form: Record              // the edit dialog's draft
    ghost var sent: seq<Request>
    ghost var inFlight: multiset<Request>

    function Snapshot(): State
      reads this
    {
      State(books, loading, error, deleteBook, editBook, form)
    }

    ghost predicate Valid()
      reads this
    {
      DraftMatchesTarget(Snapshot())
    }

    /** The five `useState` initial values and the dialog's `useState(book || {})`. */
    constructor ()
      ensures Valid()
      ensures Snapshot() == Initial()
      ensures sent == [] && inFlight == multiset{}
    {
      books := [];
      loading := true;
      error := "";
      deleteBook := None;
      editBook := None;
      form := Seed(None);
      sent := [];
      inFlight := multiset{};
    }

    /** `fetchBooks`, up to the point where it waits for the list request. */
    method FetchBooks()
      requires Valid()
      modifies this
      ensures Valid()
      ensures Snapshot() == BeginRefresh(old(Snapshot()))
      ensures sent == old(sent) + [GetBooks]
      ensures inFlight == old(inFlight) + multiset{GetBooks}
    {
      loading := true;
      error := "";
      sent := sent + [GetBooks];
      inFlight := inFlight + multiset{GetBooks};
    }

    /** The mount effect `useEffect(() => { fetchBooks(); }, [])`. */
    method Mount()
      requires Valid()
      modifies this
      ensures Valid()
      ensures Snapshot() == Step(old(Snapshot()), Mounted)
      ensures sent == old(sent) + Requests(old(Snapshot()), Mounted)
      ensures inFlight == old(inFlight) + multiset(Requests(old(Snapshot()), Mounted))
    {
      FetchBooks();
    }

    /** The `.then`/`.catch`/`.finally` chain of `fetchBooks` once the list request ends. */
    method BooksSettled(outcome: ListOutcome)
      requires Valid()
      requires GetBooks in inFlight
      modifies this
      ensures Valid()
      ensures Snapshot() == Step(old(Snapshot()), ListSettled(outcome))
      ensures sent == old(sent)
      ensures inFlight == old(inFlight) - multiset{GetBooks}
    {
      match outcome {
        case Listed(data) =>
          books := data;
        case HttpError =>
          error := FetchFailedMessage;
        case Rejected(message) =>
          error := if message != "" then message else FetchErrorFallback;
      }
      loading := false;
      inFlight := inFlight - multiset{GetBooks};
    }

    /** A card's `onDelete={setDeleteBook}`. */
    method OnDelete(book: Record)
      requires Valid()
      requires CardShown(Snapshot(), book)
      modifies this
      ensures Valid()
      ensures Snapshot() == Step(old(Snapshot()), DeleteClicked(book))
      ensures unchanged(this`sent, this`inFlight)
    {
      deleteBook := Some(book);
    }

    /** The confirm dialog's `onClose={() => setDeleteBook(null)}`. */
    method CloseConfirm()
      requires Valid()
      requires ConfirmOpen(Snapshot())
      modifies this
      ensures Valid()
      ensures Snapshot() == Step(old(Snapshot()), DeleteCancelled)
      ensures unchanged(this`sent, this`inFlight)
    {
      deleteBook := None;
    }

    /** `handleDeleteConfirm`, up to the point where it waits for the DELETE. */
    method HandleDeleteConfirm()
      requires Valid()
      requires ConfirmOpen(Snapshot())
      modifies this
      ensures Valid()
      ensures Snapshot() == Step(old(Snapshot()), DeleteConfirmed)
      ensures sent == old(sent) + Requests(old(Snapshot()), DeleteConfirmed)
      ensures inFlight == old(inFlight) + multiset(Requests(old(Snapshot()), DeleteConfirmed))
    {
      var request := Delete(Lookup(deleteBook.value, "id"));
      sent := sent + [request];
      inFlight := inFlight + multiset{request};
    }

    /** The continuation of `handleDeleteConfirm`: it runs only if the DELETE resolves. */
    method DeleteSettledWith(ghost id: Option<Value>, result: Settlement)
      requires Valid()
      requires Delete(id) in inFlight
      modifies this
      ensures Valid()
      ensures Snapshot() == Step(old(Snapshot()), DeleteSettled(result))
      ensures sent == old(sent) + Requests(old(Snapshot()), DeleteSettled(result))
      ensures inFlight == old(inFlight) - multiset{Delete(id)}
                          + multiset(Requests(old(Snapshot()), DeleteSettled(result)))
    {
      inFlight := inFlight - multiset{Delete(id)};
      if result.Responded? {
        deleteBook := None;
        FetchBooks();
      }
    }

    /**
     * `setEditBook(target)`, with the dialog's effect on `[book]` that
     * reseeds the draft whenever the armed record changes.
     */
    method SetEditBook(target: Option<Record>)
      requires Valid()
      modifies this
      ensures Valid()
      ensures Snapshot() == SetEdit(old(Snapshot()), target)
      ensures unchanged(this`sent, this`inFlight)
    {
      if target != editBook {
        editBook := target;
        form := Seed(target);
      }
    }

    /** A card's `onEdit={setEditBook}`. */
    method OnEdit(book: Record)
      requires Valid()
      requires CardShown(Snapshot(), book)
      modifies this
      ensures Valid()
      ensures Snapshot() == Step(old(Snapshot()), EditClicked(book))
      ensures unchanged(this`sent, this`inFlight)
    {
      SetEditBook(Some(book));
    }

    /** The edit dialog's `onClose={() => setEditBook(null)}`. */
    method CloseEdit()
      requires Valid()
      requires EditOpen(Snapshot())
      modifies this
      ensures Valid()
      ensures Snapshot() == Step(old(Snapshot()), EditCancelled)
      ensures unchanged(this`sent, this`inFlight)
    {
      SetEditBook(None);
    }

    /** The dialog's `handleChange` for one control. */
    method HandleChange(input: Input, value: string, checked: bool)
      requires Valid()
      requires EditOpen(Snapshot())
      modifies this
      ensures Valid()
      ensures Snapshot() == Step(old(Snapshot()), FieldChanged(input, value, checked))
      ensures unchanged(this`sent, this`inFlight)
    {
      var name := InputName(input);
      form := form[name := if IsCheckbox(input) then Bool(checked) else Str(value)];
    }

    /** `handleEditSave(updated)`, up to the point where it awaits the PUT. */
    method HandleEditSave(updated: Record)
      requires Valid()
      modifies this
      ensures Valid()
      ensures Snapshot() == old(Snapshot())
      ensures sent == old(sent) + [Put(updated)]
      ensures inFlight == old(inFlight) + multiset{Put(updated)}
    {
      sent := sent + [Put(updated)];
      inFlight := inFlight + multiset{Put(updated)};
    }

    /** The dialog's `handleSubmit`: the form passed validation, the draft goes out as it is. */
    method HandleSubmit()
      requires Valid()
      requires EditOpen(Snapshot()) && Submittable(form)
      modifies this
      ensures Valid()
      ensures Snapshot() == Step(old(Snapshot()), EditSubmitted)
      ensures sent == old(sent) + Requests(old(Snapshot()), EditSubmitted)
      ensures inFlight == old(inFlight) + multiset(Requests(old(Snapshot()), EditSubmitted))
    {
      HandleEditSave(form);
    }

    /** The rest of `handleEditSave` after `await fetch(...)`: it runs only if the PUT resolves. */
    method PutSettledWith(ghost payload: Record, result: Settlement)
      requires Valid()
      requires Put(payload) in inFlight
      modifies this
      ensures Valid()
      ensures Snapshot() == Step(old(Snapshot()), PutSettled(result))
      ensures sent == old(sent) + Requests(old(Snapshot()), PutSettled(result))
      ensures inFlight == old(inFlight) - multiset{Put(payload)}
                          + multiset(Requests(old(Snapshot()), PutSettled(result)))
    {
      inFlight := inFlight - multiset{Put(payload)};
      if result.Responded? {
        SetEditBook(None);
        FetchBooks();
      }
    }
  }
}
