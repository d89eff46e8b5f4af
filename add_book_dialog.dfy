/** src/modules/author/components/AddBookDialog.tsx: search books by title
    and pick one that the author does not have yet. */
module AddBookDialog {
  import opened Wrappers
  import opened Seqs
  import opened Entities

  /** The arguments of `BookService.getBooks(page, size, name)`; the book
      service itself is not part of this model. */
  datatype BookQuery = BookQuery(page: int, size: int, name: string)

  datatype AddBookEffect = Add(book: Book) | Close

  /** The search results offered as options: those whose id is not among
      the author's books, in the order of the results. */
  function Offerable(results: seq<Book>, existingBookIds: seq<string>): (r: seq<Book>)
    ensures |r| <= |results|
    ensures forall i :: 0 <= i < |r| ==> r[i].idBook !in existingBookIds
  {
    Filter(results, (b: Book) => b.idBook !in existingBookIds)
  }

  /** A result is offered exactly when it is new to the author, and the
      offers keep the result order. */
  lemma OfferableMembers(results: seq<Book>, existingBookIds: seq<string>, b: Book)
    ensures b in Offerable(results, existingBookIds) <==> b in results && b.idBook !in existingBookIds
    ensures IsSubsequence(Offerable(results, existingBookIds), results)
  {
    FilterMembers(results, (b: Book) => b.idBook !in existingBookIds, b);
    FilterIsSubsequence(results, (b: Book) => b.idBook !in existingBookIds);
  }

  class Dialog {
    var options: seq<Book>
    var loading: bool
    var selectedBook: Option<Book>

    constructor()
      ensures options == [] && !loading && selectedBook.None?
    {
      options := [];
      loading := false;
      selectedBook := None;
    }

    /** `handleInputChange`, with `result` the settled `getBooks` call.
        A query shorter than two characters clears the options and searches
        nothing; a longer one searches page 0 of 100 by that name, offers
        the new books on success, keeps the options on failure, and leaves
        `loading` off either way. */
    method InputChange(value: string, existingBookIds: seq<string>, result: Outcome<Pagination<Book>>)
      returns (search: Option<BookQuery>)
      modifies this
      ensures selectedBook == old(selectedBook)
      ensures |value| < 2 ==> search.None? && options == [] && loading == old(loading)
      ensures |value| >= 2 ==> search == Some(BookQuery(0, 100, value)) && !loading
      ensures |value| >= 2 && result.Ok? ==> options == Offerable(result.value.content, existingBookIds)
      ensures |value| >= 2 && result.Err? ==> options == old(options)
    {
      if |value| < 2 {
        options := [];
        return None;
      }
      loading := true;
      search := Some(BookQuery(0, 100, value));
      if result.Ok? {
        options := Offerable(result.value.content, existingBookIds);
      }
      loading := false;
    }

    /** The picker's `onChange`. */
    method Select(b: Option<Book>)
      modifies this
      ensures selectedBook == b && options == old(options) && loading == old(loading)
    {
      selectedBook := b;
    }

    /** `handleSubmit`: with a selection, add it, close, and clear the
        selection and the options; without one, nothing happens. */
    method Submit() returns (effects: seq<AddBookEffect>)
      modifies this
      ensures loading == old(loading)
      ensures old(selectedBook).None? ==> effects == [] && options == old(options) && selectedBook.None?
      ensures old(selectedBook).Some? ==>
                effects == [Add(old(selectedBook).value), Close] && selectedBook.None? && options == []
    {
      if selectedBook.None? {
        return [];
      }
      effects := [Add(selectedBook.value), Close];
      selectedBook := None;
      options := [];
    }
  }
}
