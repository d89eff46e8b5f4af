/** src/modules/author/AuthorPage.tsx: one author's detail page, loaded
    from the route's `idAuthor`, with edit and delete. */
module AuthorPage {
  import opened Wrappers
  import opened Entities
  import opened Http
  import opened Forms
  import opened AuthorService

  const LoadFailed: string := "Failed to load"

  /** The labelled rows of the details card: the optional fields show a
      dash when absent or empty, so no row is ever blank. */
  function DetailRows(a: Author): (rows: seq<(string, string)>)
    ensures |rows| == 4
    ensures rows[0] == ("ID", a.idAuthor) && rows[1] == ("Name", a.name)
    ensures rows[2].0 == "Description" && rows[3].0 == "Image Url"
    ensures rows[2].1 != "" && rows[3].1 != ""
    ensures Truthy(a.description) ==> rows[2].1 == a.description.value
    ensures Truthy(a.imageUrl) ==> rows[3].1 == a.imageUrl.value
    ensures !Truthy(a.description) ==> rows[2].1 == "—"
    ensures !Truthy(a.imageUrl) ==> rows[3].1 == "—"
  {
    [("ID", a.idAuthor), ("Name", a.name),
     ("Description", DashIfEmpty(a.description)), ("Image Url", DashIfEmpty(a.imageUrl))]
  }

  class Page {
    const idAuthor: Option<string>
    var row: Option<Author>
    var loading: bool
    var error: Option<string>
    var editOpen: bool

    /** What the page renders now: "Loading…" while loading, then a
        non-empty error message, then the loaded author if there is one, and
        otherwise "Not found". */
    function View(): (v: DetailView<Author>)
      reads this
      ensures v.Loading? <==> loading
      ensures v.Failed? <==> !loading && Truthy(error)
      ensures v.Details? <==> !loading && !Truthy(error) && row.Some?
      ensures v.Details? ==> v.row == row.value
    {
      DetailViewOf(loading, error, row)
    }

    /** The first render shows "Loading…" until a load settles. */
    constructor(idAuthor: Option<string>)
      ensures this.idAuthor == idAuthor
      ensures row.None? && loading && error.None? && !editOpen
      ensures View() == Loading
    {
      this.idAuthor := idAuthor;
      row := None;
      loading := true;
      error := None;
      editOpen := false;
    }

    /** `load()` up to the awaited request. Without a route id nothing is
        sent and nothing changes, so a page that started loading keeps
        showing "Loading…". */
    method StartLoad() returns (req: Option<Request>)
      modifies this
      ensures !Truthy(idAuthor) ==>
                req.None? && loading == old(loading) && error == old(error) && View() == old(View())
      ensures Truthy(idAuthor) ==>
                req == Some(AuthorRequest(GetAuthor(idAuthor.value))) && loading && error.None? &&
                View() == Loading
      ensures row == old(row) && editOpen == old(editOpen)
    {
      if !Truthy(idAuthor) {
        return None;
      }
      loading := true;
      error := None;
      req := Some(AuthorRequest(GetAuthor(idAuthor.value)));
    }

    /** The rest of `load`: the row is the response body on success; on
        failure the message falls back to "Failed to load". Loading ends
        either way, and the page then shows the author or the message; an
        empty message from the server is no error to the page, which then
        shows the author it had or "Not found". */
    method FinishLoad(outcome: Outcome<Author>)
      modifies this
      ensures !loading && editOpen == old(editOpen)
      ensures outcome.Ok? ==> row == Some(outcome.value) && error == old(error)
      ensures outcome.Err? ==> error == Some(NullishMessage(outcome.failure, LoadFailed)) && row == old(row)
      ensures outcome.Ok? && !Truthy(old(error)) ==> View() == Details(outcome.value)
      ensures outcome.Err? && NullishMessage(outcome.failure, LoadFailed) != "" ==>
                View() == Failed(NullishMessage(outcome.failure, LoadFailed))
      ensures outcome.Err? && NullishMessage(outcome.failure, LoadFailed) == "" ==>
                View() == if old(row).Some? then Details(old(row).value) else NotFound
    {
      if outcome.Ok? {
        row := Some(outcome.value);
      } else {
        error := Some(NullishMessage(outcome.failure, LoadFailed));
      }
      loading := false;
    }

    /** `doDelete`: nothing without a row or without confirmation;
        otherwise the author is deleted and, once that succeeds, the
        browser goes back. */
    method DoDelete(confirmed: bool, deleteOk: bool) returns (effects: seq<DetailEffect>)
      ensures row.None? || !confirmed ==> effects == []
      ensures row.Some? && confirmed ==>
                |effects| >= 1 && effects[0] == Send(AuthorRequest(DeleteAuthor(row.value.idAuthor)))
      ensures row.Some? && confirmed && deleteOk ==> effects == [effects[0], GoBack]
      ensures row.Some? && confirmed && !deleteOk ==> effects == [effects[0]]
    {
      if row.None? || !confirmed {
        return [];
      }
      effects := [Send(AuthorRequest(DeleteAuthor(row.value.idAuthor)))];
      if deleteOk {
        effects := effects + [GoBack];
      }
    }

    /** The Edit button and the dialog's `onClose`. */
    method SetEditOpen(open: bool)
      modifies this
      ensures editOpen == open
      ensures row == old(row) && loading == old(loading) && error == old(error)
    {
      editOpen := open;
    }

    /** The dialog's `onSave`, offered only once the author is shown: the
        payload is put to the shown author's id, and a successful put
        reloads the page. */
    method SaveEdit(saveOk: bool) returns (reqs: seq<Request>)
      requires row.Some?
      modifies this
      ensures |reqs| >= 1 && reqs[0] == AuthorRequest(PutAuthor(old(row).value.idAuthor))
      ensures !saveOk ==> reqs == [reqs[0]] && loading == old(loading) && error == old(error)
      ensures saveOk && !Truthy(idAuthor) ==> reqs == [reqs[0]] && View() == old(View())
      ensures saveOk && Truthy(idAuthor) ==>
                reqs == [reqs[0], AuthorRequest(GetAuthor(idAuthor.value))] && View() == Loading
      ensures row == old(row) && editOpen == old(editOpen)
    {
      reqs := [AuthorRequest(PutAuthor(row.value.idAuthor))];
      if saveOk {
        var reload := StartLoad();
        if reload.Some? {
          reqs := reqs + [reload.value];
        }
      }
    }
  }
}
