/** src/modules/genre/GenrePage.tsx: one genre's detail page, loaded
    from the route's `idGenre`, with edit and delete. */
module GenrePage {
  import opened Wrappers
  import opened Entities
  import opened Http
  import opened Forms
  import opened GenreService

  const LoadFailed: string := "Failed to load"

  /** The labelled rows of the details card: it answers "ID" with the
      genre's id and "Name" with its name, both verbatim (no dash stands in
      for an empty one, unlike the optional fields of the other cards), and
      has no other label. */
  function DetailRows(g: Genre): (rows: seq<(string, string)>)
    ensures RowValue(rows, "ID") == Some(g.idGenre)
    ensures RowValue(rows, "Name") == Some(g.name)
    ensures forall key :: key != "ID" && key != "Name" ==> RowValue(rows, key).None?
  {
    [("ID", g.idGenre), ("Name", g.name)]
  }

  class Page {
    const idGenre: Option<string>
    var row: Option<Genre>
    var loading: bool
    var error: Option<string>
    var editOpen: bool

    /** What the page renders now: "Loading…" while loading, then a
        non-empty error message, then the loaded genre if there is one, and
        otherwise "Not found". */
    function View(): (v: DetailView<Genre>)
      reads this
      ensures v.Loading? <==> loading
      ensures v.Failed? <==> !loading && Truthy(error)
      ensures v.Details? <==> !loading && !Truthy(error) && row.Some?
      ensures v.Details? ==> v.row == row.value
    {
      DetailViewOf(loading, error, row)
    }

    /** The first render shows "Loading…" until a load settles. */
    constructor(idGenre: Option<string>)
      ensures this.idGenre == idGenre
      ensures row.None? && loading && error.None? && !editOpen
      ensures View() == Loading
    {
      this.idGenre := idGenre;
      row := None;
      loading := true;
      error := None;
      editOpen := false;
    }

    /** `load()` up to the awaited request. Without a route id nothing is
        sent and nothing changes, so a page that started loading keeps
        showing "Loading…". */
    method StartLoad() returns (req: Option<Request>)
      modifies this
      ensures !Truthy(idGenre) ==>
                req.None? && loading == old(loading) && error == old(error) && View() == old(View())
      ensures Truthy(idGenre) ==>
                req == Some(GenreRequest(GetGenre(idGenre.value))) && loading && error.None? &&
                View() == Loading
      ensures row == old(row) && editOpen == old(editOpen)
    {
      if !Truthy(idGenre) {
        return None;
      }
      loading := true;
      error := None;
      req := Some(GenreRequest(GetGenre(idGenre.value)));
    }

    /** The rest of `load`: the row is the response body on success; on
        failure the message falls back to "Failed to load". Loading ends
        either way, and the page then shows the genre or the message; an
        empty message from the server is no error to the page, which then
        shows the genre it had or "Not found". */
    method FinishLoad(outcome: Outcome<Genre>)
      modifies this
      ensures !loading && editOpen == old(editOpen)
      ensures outcome.Ok? ==> row == Some(outcome.value) && error == old(error)
      ensures outcome.Err? ==> error == Some(NullishMessage(outcome.failure, LoadFailed)) && row == old(row)
      ensures outcome.Ok? && !Truthy(old(error)) ==> View() == Details(outcome.value)
      ensures outcome.Err? && NullishMessage(outcome.failure, LoadFailed) != "" ==>
                View() == Failed(NullishMessage(outcome.failure, LoadFailed))
      ensures outcome.Err? && NullishMessage(outcome.failure, LoadFailed) == "" ==>
                View() == if old(row).Some? then Details(old(row).value) else NotFound
    {
      if outcome.Ok? {
        row := Some(outcome.value);
      } else {
        error := Some(NullishMessage(outcome.failure, LoadFailed));
      }
      loading := false;
    }

    /** `doDelete`: nothing without a row or without confirmation;
        otherwise the genre is deleted and, once that succeeds, the
        browser goes back. */
    method DoDelete(confirmed: bool, deleteOk: bool) returns (effects: seq<DetailEffect>)
      ensures row.None? || !confirmed ==> effects == []
      ensures row.Some? && confirmed ==>
                |effects| >= 1 && effects[0] == Send(GenreRequest(DeleteGenre(row.value.idGenre)))
      ensures row.Some? && confirmed && deleteOk ==> effects == [effects[0], GoBack]
      ensures row.Some? && confirmed && !deleteOk ==> effects == [effects[0]]
    {
      if row.None? || !confirmed {
        return [];
      }
      effects := [Send(GenreRequest(DeleteGenre(row.value.idGenre)))];
      if deleteOk {
        effects := effects + [GoBack];
      }
    }

    /** The Edit button and the dialog's `onClose`. */
    method SetEditOpen(open: bool)
      modifies this
      ensures editOpen == open
      ensures row == old(row) && loading == old(loading) && error == old(error)
    {
      editOpen := open;
    }

    /** The dialog's `onSave`, offered only once the genre is shown: the
        payload is put to the shown genre's id, and a successful put
        reloads the page. */
    method SaveEdit(saveOk: bool) returns (reqs: seq<Request>)
      requires row.Some?
      modifies this
      ensures |reqs| >= 1 && reqs[0] == GenreRequest(PutGenre(old(row).value.idGenre))
      ensures !saveOk ==> reqs == [reqs[0]] && loading == old(loading) && error == old(error)
      ensures saveOk && !Truthy(idGenre) ==> reqs == [reqs[0]] && View() == old(View())
      ensures saveOk && Truthy(idGenre) ==>
                reqs == [reqs[0], GenreRequest(GetGenre(idGenre.value))] && View() == Loading
      ensures row == old(row) && editOpen == old(editOpen)
    {
      reqs := [GenreRequest(PutGenre(row.value.idGenre))];
      if saveOk {
        var reload := StartLoad();
        if reload.Some? {
          reqs := reqs + [reload.value];
        }
      }
    }
  }
}
