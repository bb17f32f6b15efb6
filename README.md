# Book library page controller

A model of the controller logic of the book-library page (`src/pages/Home.jsx`):
the `Home` component's state (`books`, `loading`, `error`, the armed delete
target `deleteBook`, the armed edit target `editBook`), the edit dialog's draft
`form`, the three flows that change them (refresh, delete, edit), the guards
that decide when each dialog is open, and the rule that decides what the page
renders.

Every handler is synchronous once each `fetch` is split in two: the handler
issues a request, and a later event delivers its outcome. The list request ends
with `Listed(data)`, `HttpError` (a status that is not ok) or `Rejected(message)`
(the promise rejects, including a body that is not JSON); a DELETE or PUT ends
with `Responded(status)` for any status, or `NetworkFailure(message)`.

Files:

- `records.dfy` (module `Records`): a book record is a JavaScript object, modelled
  as `map<string, Value>`, with JavaScript truthiness.
- `edit_modal.dfy` (module `EditModal`): the draft seed `book || {}`, the
  `handleChange` updater, and the browser's form validation (`required`,
  `min="1"`) as the predicate `Submittable`.
- `home_state.dfy` (module `HomeState`): the page state as a value, the events
  (user gestures and request completions), `Step` (the new state) and
  `Requests` (the requests an event issues), with the frame lemmas.
- `home_view.dfy` (module `HomeView`): the render-selection rule.
- `traces.dfy` (module `Traces`): runs of events and what holds of every run,
  plus the flows end to end.
- `home.dfy` (module `HomeController`): the `Home` component as a class whose
  handlers update its fields setter by setter; each method's contract ties the
  new state to `Step` and the requests it sends to `Requests`. A ghost log
  `sent` records every request; a ghost multiset `inFlight` holds those that
  have not ended, so a completion is only delivered for a request that was sent.

A gesture can only come from a control that is on the page: a card's buttons
when the card is rendered (`!loading` and the record is in `books`), a dialog's
buttons and inputs when the dialog is open, and a submission when the browser's
validation passes. `Step` ignores any other gesture; the class's handlers
require it.

## Model

| member | source | states |
|---|---|---|
| `EditModal.ApplyChange` | src/pages/Home.jsx:33-38 | the draft gains exactly the field `name`, set to `checked` for a checkbox and to the raw text otherwise; every other field is kept |
| `EditModal.ChangeInput` | src/pages/Home.jsx:33-38 | a form control adds or overwrites exactly its own field (the draft's keys become the old keys plus that one), the `read` box with a boolean and the others with raw text (no integer coercion of `pageCount`); every other field, the draft's `id` included, is kept |
| `EditModal.PageCountValue` | src/pages/Home.jsx:82-91 | the number the page-count control holds for the value it shows, `form.pageCount \|\| ""`: a server number n gives n, except 0, which shows as blank; a missing, null or boolean value gives nothing; it holds a number only when the shown value is non-empty |
| `EditModal.StripLineBreaks` | src/pages/Home.jsx:58-81 | a single-line input's shown text has no line breaks, is the value itself when the value has none, is empty exactly when the value is nothing but line breaks, and for a single character drops it if it is a line break and keeps it otherwise |
| `EditModal.StripLineBreaksAppend` | src/pages/Home.jsx:58-81 | stripping a concatenation gives the concatenation of the stripped pieces, so together with the one-character case every other character is kept, in order |
| `EditModal.Submittable` | src/pages/Home.jsx:57-100 | the browser lets the form submit only when title, author, genre, page count and description are all filled and the page count holds a number of at least 1; the three single-line inputs count as filled only when something other than line breaks is left |
| `EditModal.LineBreaksOnlyBlockSubmit` | src/pages/Home.jsx:58-81 | a title, author or genre made only of line breaks shows as an empty `required` input and blocks the form |
| `EditModal.DigitsAtLeastOne` | src/pages/Home.jsx:82-91 | typed page-count text passes `min="1"` exactly when one of its digits is not zero |
| `EditModal.TypedPageCount` | src/pages/Home.jsx:33-38 | typing text into the page-count control makes it hold that text's number, or nothing when it is not a plain digit string |
| `EditModal.TypedDigitsPassMin` | src/pages/Home.jsx:82-91 | after typing digits as the page count, the form passes `min="1"` exactly when one of the typed digits is not zero |
| `HomeState.FetchError` | src/pages/Home.jsx:144-149 | a failed refresh always leaves a non-empty banner: "Failed to fetch books." for a status that is not ok, the rejection's message when it has one, and "Error fetching books" when that message is empty |
| `HomeState.Initial` | src/pages/Home.jsx:134-138 | before mounting the page has no books, is loading, has no error, no armed records, and the dialog's draft is `{}` |
| `HomeState.ConfirmOpen` | src/pages/Home.jsx:196-200 | the delete dialog renders exactly while a record is armed for deletion (`open={!!deleteBook}`) |
| `HomeState.EditOpen` | src/pages/Home.jsx:31 | the edit dialog's guard `!open \|\| !book`, with `open={!!editBook}` and `book={editBook}`, lets it render exactly while a record is armed for editing |
| `HomeState.BeginRefresh` | src/pages/Home.jsx:140-142 | starting a refresh sets `loading` and clears `error`, and leaves the books, both targets and the draft alone |
| `HomeState.SettleRefresh` | src/pages/Home.jsx:143-150 | when the list request ends `loading` is false; on success `books` is the returned list as it is and `error` is untouched; on failure `books` is unchanged and `error` is the failure's message |
| `HomeState.SetEdit` | src/pages/Home.jsx:25-29 | arming or clearing the edit target reseeds the draft from the new target (`{}` for none) whenever the target changes, and touches nothing else |
| `HomeState.Requests` | src/pages/Home.jsx:140-172 | at most one request per event; a list request exactly for the mount effect and for a DELETE or PUT that got a response; a confirmed delete sends DELETE for the armed record's `id`; a submission sends PUT with the whole draft; every PUT carries a draft the browser accepted |
| `HomeState.Step` | src/pages/Home.jsx:140-206 | the state after any event: a gesture on a control that is not rendered changes nothing; only a card's delete button, Cancel or a settled DELETE change the delete target; only a card's edit button, Cancel or a settled PUT change the edit target; only a completed list request changes `books` |
| `HomeState.StepLoadingAndBanner` | src/pages/Home.jsx:140-150 | `loading` and `error` change only when a refresh starts (to true and "") or the list request ends (`loading` false, `error` the failure message on failure) |
| `HomeState.StepBooks` | src/pages/Home.jsx:143-150 | `books` changes only to the data of a successful listing, in the server's order |
| `HomeState.StepDeleteFlow` | src/pages/Home.jsx:155-161 | the delete target is armed by a card, cleared by Cancel or by a DELETE that got a response with any status, and kept by everything else, including a rejected DELETE |
| `HomeState.StepEditFlow` | src/pages/Home.jsx:163-172 | the edit target is armed by a card, cleared by Cancel or by a PUT that got a response with any status; the draft is reseeded whenever the target changes and otherwise changes only through a form control |
| `HomeState.StepIgnored` | src/pages/Home.jsx:155-172 | a rejected DELETE or PUT, and a gesture on a control that is not rendered, change no state and send nothing |
| `HomeState.StepKeepsDraft` | src/pages/Home.jsx:25-38 | every event keeps the draft tied to the target: empty when nothing is armed, with the target's `id` otherwise |
| `HomeView.Placeholders` | src/pages/Home.jsx:182 | n placeholders, all of them loaders |
| `HomeView.Cards` | src/pages/Home.jsx:183-191 | one card per book, in the books' order |
| `HomeView.View` | src/pages/Home.jsx:177-193 | the banner shows iff `error` is non-empty; while loading exactly 4 placeholders whatever the books; otherwise one card per book in order, or "No books found." for none; the delete dialog is open iff `deleteBook` is set and names it; the edit dialog is open iff `editBook` is set and shows the draft |
| `HomeView.CardShownIsRendered` | src/pages/Home.jsx:184-190 | a record's card is on the page exactly when the page is not loading and the record is in `books` |
| `Traces.BooksFromLatestListing` | src/pages/Home.jsx:143-150 | after any run, `books` is the data of the list request that completed last with success, or the starting books when none did; with overlapping refreshes the last completion wins |
| `Traces.LoadingFollowsRefreshes` | src/pages/Home.jsx:140-150 | after any run, `loading` is true iff a refresh started after the last list completion (or it was true and neither happened) |
| `Traces.OneListRequestPerRefresh` | src/pages/Home.jsx:153-172 | a run sends exactly one list request per mount effect and per DELETE or PUT that got a response |
| `Traces.GesturesAloneSendNothing` | src/pages/Home.jsx:188-206 | arming, cancelling and typing never send a request |
| `Traces.SentDraftsAreValid` | src/pages/Home.jsx:57-100 | every PUT a run sends carries a draft with title, author, genre and description filled and a page count of at least 1 |
| `Traces.DraftStaysWithTarget` | src/pages/Home.jsx:25-38 | through any run the draft keeps the armed record's `id`, and is empty while nothing is armed |
| `Traces.MountShowsPlaceholders` | src/pages/Home.jsx:134-153 | from the initial state the mount effect sends the list request and the page shows 4 placeholders and no banner |
| `Traces.EmptyListingShowsNotice` | src/pages/Home.jsx:183-192 | an empty listing shows "No books found." and no placeholders |
| `Traces.DeleteScenario` | src/pages/Home.jsx:155-161 | arm, confirm, and a response with any status: the dialog closes and the requests are DELETE for the card's `id` then one list request |
| `Traces.RejectedDeleteKeepsDialog` | src/pages/Home.jsx:155-161 | arm, confirm, and a rejected DELETE: the dialog stays armed and no refresh is sent |
| `Traces.EditSaveScenario` | src/pages/Home.jsx:163-172 | arm edit and submit an accepted draft: PUT carries the draft unchanged; after a response with any status the dialog closes, the draft is emptied and one list request follows |
| `Traces.ZeroPageCountBlocksSave` | src/pages/Home.jsx:82-91 | typing "0" as the page count blocks the submission: nothing is sent and the dialog stays armed with that draft |
| `Traces.RearmingDiscardsDraft` | src/pages/Home.jsx:27-29 | arming a second record after typing into the first draft replaces the target and the draft becomes the second record |
| `HomeController.Home.constructor` | src/pages/Home.jsx:134-138 | the page starts with no books, loading, no error, no targets and an empty draft |
| `HomeController.Home.FetchBooks` | src/pages/Home.jsx:140-143 | sets `loading`, clears `error`, sends the list request |
| `HomeController.Home.Mount` | src/pages/Home.jsx:153 | the mount effect is the `Mounted` step |
| `HomeController.Home.BooksSettled` | src/pages/Home.jsx:144-150 | the list request's continuation is the `ListSettled` step and consumes the pending list request |
| `HomeController.Home.OnDelete` | src/pages/Home.jsx:189 | arming delete is the `DeleteClicked` step, with no request |
| `HomeController.Home.CloseConfirm` | src/pages/Home.jsx:198 | cancelling delete is the `DeleteCancelled` step, with no request |
| `HomeController.Home.HandleDeleteConfirm` | src/pages/Home.jsx:155-156 | confirming sends DELETE for the armed record's `id` and changes no state |
| `HomeController.Home.DeleteSettledWith` | src/pages/Home.jsx:157-160 | the DELETE's continuation is the `DeleteSettled` step: on a response it clears the target and starts one refresh; on a rejection nothing happens |
| `HomeController.Home.SetEditBook` | src/pages/Home.jsx:25-29 | `setEditBook` with the draft reseeded when the target changes |
| `HomeController.Home.OnEdit` | src/pages/Home.jsx:188 | arming edit is the `EditClicked` step, with no request |
| `HomeController.Home.CloseEdit` | src/pages/Home.jsx:206 | cancelling edit is the `EditCancelled` step, with no request |
| `HomeController.Home.HandleChange` | src/pages/Home.jsx:33-39 | a control change is the `FieldChanged` step, with no request |
| `HomeController.Home.HandleEditSave` | src/pages/Home.jsx:163-169 | sends PUT with the record it is given and changes no state |
| `HomeController.Home.HandleSubmit` | src/pages/Home.jsx:41-44 | a submission the browser accepted sends the draft unchanged and changes no state |
| `HomeController.Home.PutSettledWith` | src/pages/Home.jsx:169-171 | the rest of `handleEditSave` is the `PutSettled` step: on a response it clears the target (emptying the draft) and starts one refresh; on a rejection nothing happens |

## Left out

- HTTP transport: `fetch`, the URL built from `API_BASE_URL`, and the `FormData`/`Blob`/`JSON.stringify` encoding of the PUT body. Each request is an abstract `Request` value; the PUT payload is the draft record itself.
- React machinery: `useState`/`useEffect` scheduling and re-render timing. The draft reset is atomic with the change of `editBook`, and "changes" compares records by value where React compares object identity; a record re-armed with an equal but distinct object would reseed in React and not in the model.
- Markup, styling, the close icon, and the `BookCard` and `BookLoader` components. They are presentation outside this file; the view is reduced to which tiles and dialogs appear and what they show.
- Overlapping refreshes: completions are delivered in any order with no guard, as in the code. `Traces.BooksFromLatestListing` and `Traces.LoadingFollowsRefreshes` state what results; no stronger ordering is claimed.
- The dialogs' full-screen overlay: the model lets a card be armed while a dialog is open, which the page's layout prevents.
- `EditModal.PageCountValue`: a number input also accepts spellings such as "2.0" or "1e2"; the model reads only plain digit strings and treats every other text as blank. JSON page counts are whole numbers.
- Unhandled promise rejections from DELETE and PUT: the model records that nothing happens; the console report is not modelled.
- `handleDeleteConfirm` with no armed record throws a TypeError in the code. Its button is rendered only while a record is armed, so the model never reaches that case.
- Uniqueness of `id` among the books: the code relies on it only as the React list key (`key={book.id}`), where duplicate keys make React's updates of the card list unreliable. The model assumes ids are unique and does not model reconciliation, so `HomeView.View`'s "one card per book in order" holds only under that assumption.
- Behaviour the code does not implement is not modelled: integer coercion of `pageCount` on change, an explicit validation-error path, keeping a dialog open with an error after a failed DELETE or PUT, and checking the HTTP status of DELETE or PUT. The model follows the code.
