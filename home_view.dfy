/**
 * What the page renders for a state: the error banner, the grid (loading
 * placeholders, one card per book, or the empty notice), and the two
 * dialogs with what each of them shows.
 */
module HomeView {
  import opened Records
  import opened HomeState

  const PlaceholderCount: nat := 4
  const EmptyNotice: string := "No books found."

  datatype Tile = Placeholder | Card(book: Record) | Notice(text: string)

  datatype Screen = Screen(
    banner: Option<string>,    // the error banner and its text
    tiles: seq<Tile>,          // the grid, in order
    confirm: Option<Record>,   // the delete dialog and the record it names
    editor: Option<Record>)    // the edit dialog and the draft in its controls

  /** `Array.from({ length: n }).map(...)`: n loading placeholders. */
  function Placeholders(n: nat): (r: seq<Tile>)
    ensures |r| == n
    ensures forall i :: 0 <= i < n ==> r[i] == Placeholder
  {
    if n == 0 then [] else Placeholders(n - 1) + [Placeholder]
  }

  /** `books.map(book => <BookCard book={book} ... />)`. */
  function Cards(books: seq<Record>): (r: seq<Tile>)
    ensures |r| == |books|
    ensures forall i :: 0 <= i < |books| ==> r[i] == Card(books[i])
  {
    if books == [] then [] else [Card(books[0])] + Cards(books[1..])
  }

  function View(s: State): (v: Screen)
    ensures v.banner.Some? <==> s.error != ""
    ensures v.banner.Some? ==> v.banner.value == s.error
    ensures s.loading ==> |v.tiles| == PlaceholderCount
                          && forall i :: 0 <= i < |v.tiles| ==> v.tiles[i] == Placeholder
    ensures !s.loading && s.books != [] ==>
              |v.tiles| == |s.books| && forall i :: 0 <= i < |s.books| ==> v.tiles[i] == Card(s.books[i])
    ensures !s.loading && s.books == [] ==> v.tiles == [Notice(EmptyNotice)]
    ensures v.confirm.Some? <==> ConfirmOpen(s)
    ensures v.confirm.Some? ==> v.confirm == s.deleteBook
    ensures v.editor.Some? <==> EditOpen(s)
    ensures v.editor.Some? ==> v.editor.value == s.form
  {
    var banner := if s.error != "" then Some(s.error) else None;
    var tiles :=
      if s.loading then Placeholders(PlaceholderCount)
      else if |s.books| != 0 then Cards(s.books)
      else [Notice(EmptyNotice)];
    var confirm := if ConfirmOpen(s) then s.deleteBook else None;
    var editor := if EditOpen(s) then Some(s.form) else None;
    Screen(banner, tiles, confirm, editor)
  }

  /** A card is on the page exactly when its edit and delete buttons can be clicked. */
  lemma {:induction false} CardShownIsRendered(s: State, b: Record)
    ensures CardShown(s, b) <==> Card(b) in View(s).tiles
  {
    var tiles := View(s).tiles;
    if CardShown(s, b) {
      var i :| 0 <= i < |s.books| && s.books[i] == b;
      assert tiles[i] == Card(b);
    }
  }
}
