/**
 * Runs of the page: a sequence of events applied from a state, and the
 * requests the run sends. The lemmas here state what holds of every run,
 * however user gestures and request completions interleave, and follow
 * the mount, delete and edit flows end to end.
 */
module Traces {
  import opened Records
  import opened EditModal
  import opened HomeState
  import opened HomeView

  function Run(s: State, es: seq<Event>): State
    decreases |es|
  {
    if es == [] then s else Run(Step(s, es[0]), es[1..])
  }

  function RunRequests(s: State, es: seq<Event>): seq<Request>
    decreases |es|
  {
    if es == [] then [] else Requests(s, es[0]) + RunRequests(Step(s, es[0]), es[1..])
  }

  /** Appending one event to a run takes one more step from where the run ended. */
  lemma {:induction false} RunSnoc(s: State, es: seq<Event>, e: Event)
    ensures Run(s, es + [e]) == Step(Run(s, es), e)
    ensures RunRequests(s, es + [e]) == RunRequests(s, es) + Requests(Run(s, es), e)
    decreases |es|
  {
    if es != [] {
      assert (es + [e])[0] == es[0];
      assert (es + [e])[1..] == es[1..] + [e];
      RunSnoc(Step(s, es[0]), es[1..], e);
    } else {
      assert [e][1..] == [];
    }
  }

  /** The data of the last list request in `es` that succeeded, if any. */
  function LatestListing(es: seq<Event>): Option<seq<Record>>
  {
    if es == [] then None
    else
      var e := es[|es| - 1];
      if e.ListSettled? && e.outcome.Listed? then Some(e.outcome.data)
      else LatestListing(es[..|es| - 1])
  }

  /**
   * The collection shown after a run is exactly the data of the list
   * request that completed last with success, in the server's order; with
   * no such completion it is the collection the run started with. With
   * overlapping refreshes, the one that completes last wins.
   */
  lemma {:induction false} BooksFromLatestListing(s: State, es: seq<Event>)
    ensures Run(s, es).books == match LatestListing(es) case Some(d) => d case None => s.books
  {
    if es != [] {
      var init, e := es[..|es| - 1], es[|es| - 1];
      assert es == init + [e];
      BooksFromLatestListing(s, init);
      RunSnoc(s, init, e);
    }
  }

  /** Whether a refresh was started after the last list completion in `es`. */
  function LoadingAfter(initially: bool, es: seq<Event>): bool
  {
    if es == [] then initially
    else
      var e := es[|es| - 1];
      if StartsRefresh(e) then true
      else if e.ListSettled? then false
      else LoadingAfter(initially, es[..|es| - 1])
  }

  /**
   * `loading` is set by the latest refresh start and cleared by the latest
   * list completion, whichever came last; no other event touches it.
   */
  lemma {:induction false} LoadingFollowsRefreshes(s: State, es: seq<Event>)
    ensures Run(s, es).loading == LoadingAfter(s.loading, es)
  {
    if es != [] {
      var init, e := es[..|es| - 1], es[|es| - 1];
      assert es == init + [e];
      LoadingFollowsRefreshes(s, init);
      RunSnoc(s, init, e);
    }
  }

  function CountRefreshStarts(es: seq<Event>): nat
  {
    if es == [] then 0
    else (if StartsRefresh(es[0]) then 1 else 0) + CountRefreshStarts(es[1..])
  }

  /**
   * A run sends exactly one list request per mount effect and per DELETE
   * or PUT that got a response, and none otherwise.
   */
  lemma {:induction false} OneListRequestPerRefresh(s: State, es: seq<Event>)
    ensures multiset(RunRequests(s, es))[GetBooks] == CountRefreshStarts(es)
    decreases |es|
  {
    if es != [] {
      OneListRequestPerRefresh(Step(s, es[0]), es[1..]);
      var rs := Requests(s, es[0]);
      assert multiset(rs)[GetBooks] == if StartsRefresh(es[0]) then 1 else 0 by {
        if rs != [] {
          assert rs == [rs[0]];
        }
      }
    }
  }

  /**
   * A run with no mount, no confirmed delete, no submitted edit and no
   * answered DELETE or PUT sends nothing: arming, cancelling and typing
   * never reach the network.
   */
  lemma {:induction false} GesturesAloneSendNothing(s: State, es: seq<Event>)
    requires forall i :: 0 <= i < |es| ==>
               !StartsRefresh(es[i]) && !es[i].DeleteConfirmed? && !es[i].EditSubmitted?
    ensures RunRequests(s, es) == []
    decreases |es|
  {
    if es != [] {
      assert forall i :: 0 <= i < |es[1..]| ==> es[1..][i] == es[i + 1];
      GesturesAloneSendNothing(Step(s, es[0]), es[1..]);
    }
  }

  /** Every PUT a run sends carries a draft the browser's validation accepted. */
  lemma {:induction false} SentDraftsAreValid(s: State, es: seq<Event>)
    ensures forall q :: q in RunRequests(s, es) && q.Put? ==> Submittable(q.payload)
    decreases |es|
  {
    if es != [] {
      SentDraftsAreValid(Step(s, es[0]), es[1..]);
    }
  }

  /** The draft keeps the armed record's `id` through every run, and is empty when nothing is armed. */
  lemma {:induction false} DraftStaysWithTarget(s: State, es: seq<Event>)
    requires DraftMatchesTarget(s)
    ensures DraftMatchesTarget(Run(s, es))
    decreases |es|
  {
    if es != [] {
      StepKeepsDraft(s, es[0]);
      DraftStaysWithTarget(Step(s, es[0]), es[1..]);
    }
  }

  /** The page after mounting: the list request is out and the placeholders are shown. */
  lemma MountShowsPlaceholders()
    ensures Step(Initial(), Mounted).loading
    ensures Requests(Initial(), Mounted) == [GetBooks]
    ensures View(Step(Initial(), Mounted)).tiles == Placeholders(PlaceholderCount)
    ensures View(Step(Initial(), Mounted)).banner.None?
  {
  }

  /** An empty listing shows the empty notice and no placeholders. */
  lemma EmptyListingShowsNotice(s: State)
    ensures View(Step(s, ListSettled(Listed([])))).tiles == [Notice(EmptyNotice)]
  {
  }

  /** A run of three events, spelled out step by step. */
  lemma RunOfThree(s: State, e1: Event, e2: Event, e3: Event)
    ensures var s1 := Step(s, e1); var s2 := Step(s1, e2);
            Run(s, [e1, e2, e3]) == Step(s2, e3)
            && RunRequests(s, [e1, e2, e3]) == Requests(s, e1) + Requests(s1, e2) + Requests(s2, e3)
  {
    var s1 := Step(s, e1);
    var s2 := Step(s1, e2);
    assert [e1, e2, e3][1..] == [e2, e3];
    assert [e2, e3][1..] == [e3];
    assert [e3][1..] == [];
    assert Run(s2, [e3]) == Step(s2, e3);
    assert Run(s1, [e2, e3]) == Run(s2, [e3]);
    assert RunRequests(s2, [e3]) == Requests(s2, e3);
    assert RunRequests(s1, [e2, e3]) == Requests(s1, e2) + RunRequests(s2, [e3]);
  }

  /**
   * Arming delete on a shown card, confirming, and getting a response with
   * any status disarms the dialog and sends the DELETE for the card's id
   * followed by exactly one list request.
   */
  lemma DeleteScenario(s: State, b: Record, status: int)
    requires CardShown(s, b)
    ensures var es := [DeleteClicked(b), DeleteConfirmed, DeleteSettled(Responded(status))];
            Run(s, es).deleteBook == None
            && Run(s, es).loading
            && RunRequests(s, es) == [Delete(Lookup(b, "id")), GetBooks]
  {
    var e1, e2, e3 := DeleteClicked(b), DeleteConfirmed, DeleteSettled(Responded(status));
    assert Step(s, e1).deleteBook == Some(b);
    RunOfThree(s, e1, e2, e3);
  }

  /**
   * A DELETE whose promise rejects leaves the dialog armed and starts no
   * refresh.
   */
  lemma RejectedDeleteKeepsDialog(s: State, b: Record, msg: string)
    requires CardShown(s, b)
    ensures var es := [DeleteClicked(b), DeleteConfirmed, DeleteSettled(NetworkFailure(msg))];
            Run(s, es).deleteBook == Some(b)
            && RunRequests(s, es) == [Delete(Lookup(b, "id"))]
  {
    var e1, e2, e3 := DeleteClicked(b), DeleteConfirmed, DeleteSettled(NetworkFailure(msg));
    assert Step(s, e1).deleteBook == Some(b);
    RunOfThree(s, e1, e2, e3);
  }

  /**
   * Arming edit on a shown card, typing "0" as the page count and
   * submitting: `min="1"` blocks the submission, so nothing is sent and
   * the dialog stays armed with the typed draft.
   */
  lemma ZeroPageCountBlocksSave(s: State, b: Record)
    requires CardShown(s, b)
    requires s.editBook != Some(b)
    ensures var es := [EditClicked(b), FieldChanged(PageCount, "0", false), EditSubmitted];
            RunRequests(s, es) == []
            && Run(s, es).editBook == Some(b)
            && Run(s, es).form == b["pageCount" := Str("0")]
  {
    var e1, e2, e3 := EditClicked(b), FieldChanged(PageCount, "0", false), EditSubmitted;
    var s1 := Step(s, e1);
    assert s1.editBook == Some(b) && s1.form == b;
    var s2 := Step(s1, e2);
    assert s2.form == b["pageCount" := Str("0")];
    TypedDigitsPassMin(s1.form, "0", false);
    RunOfThree(s, e1, e2, e3);
  }

  /**
   * Arming edit on a shown card and submitting a draft the browser accepts
   * sends that draft as it is; once the PUT gets a response with any
   * status the dialog closes, the draft is discarded and exactly one list
   * request follows.
   */
  lemma EditSaveScenario(s: State, b: Record, status: int)
    requires CardShown(s, b)
    requires s.editBook != Some(b)
    requires Submittable(b)
    ensures var es := [EditClicked(b), EditSubmitted, PutSettled(Responded(status))];
            RunRequests(s, es) == [Put(b), GetBooks]
            && Run(s, es).editBook == None
            && Run(s, es).form == map[]
            && Run(s, es).loading
  {
    var e1, e2, e3 := EditClicked(b), EditSubmitted, PutSettled(Responded(status));
    var s1 := Step(s, e1);
    assert s1.editBook == Some(b) && s1.form == b;
    RunOfThree(s, e1, e2, e3);
  }

  /** Arming a second record replaces the target and discards the draft typed for the first. */
  lemma RearmingDiscardsDraft(s: State, a: Record, b: Record, i: Input, text: string)
    requires !s.loading && a in s.books && b in s.books && a != b
    ensures var es := [EditClicked(a), FieldChanged(i, text, false), EditClicked(b)];
            Run(s, es).editBook == Some(b) && Run(s, es).form == b
  {
    var e1, e2, e3 := EditClicked(a), FieldChanged(i, text, false), EditClicked(b);
    assert Step(s, e1).editBook == Some(a);
    RunOfThree(s, e1, e2, e3);
  }
}
