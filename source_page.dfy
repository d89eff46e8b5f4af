/** src/modules/source/SourcePage.tsx: one source's detail page, loaded
    from the route's `idSource`, with edit and delete. */
module SourcePage {
  import opened Wrappers
  import opened Entities
  import opened Http
  import opened Forms
  import opened SourceService

  const LoadFailed: string := "Failed to load"

  /** The labelled rows of the details card: an absent or empty
      description shows a dash, so no row is ever blank. */
  function DetailRows(src: Source): (rows: seq<(string, string)>)
    ensures |rows| == 3
    ensures rows[0] == ("ID", src.idSource) && rows[1] == ("Name", src.name)
    ensures rows[2].0 == "Description" && rows[2].1 != ""
    ensures Truthy(src.description) ==> rows[2].1 == src.description.value
    ensures !Truthy(src.description) ==> rows[2].1 == "—"
  {
    [("ID", src.idSource), ("Name", src.name), ("Description", DashIfEmpty(src.description))]
  }

  class Page {
    const idSource: Option<string>
    var row: Option<Source>
    var loading: bool
    var error: Option<string>
    var editOpen: bool

    /** What the page renders now: "Loading…" while loading, then a
        non-empty error message, then the loaded source if there is one, and
        otherwise "Not found". */
    function View(): (v: DetailView<Source>)
      reads this
      ensures v.Loading? <==> loading
      ensures v.Failed? <==> !loading && Truthy(error)
      ensures v.Details? <==> !loading && !Truthy(error) && row.Some?
      ensures v.Details? ==> v.row == row.value
    {
      DetailViewOf(loading, error, row)
    }

    /** The first render shows "Loading…" until a load settles. */
    constructor(idSource: Option<string>)
      ensures this.idSource == idSource
      ensures row.None? && loading && error.None? && !editOpen
      ensures View() == Loading
    {
      this.idSource := idSource;
      row := None;
      loading := true;
      error := None;
      editOpen := false;
    }

    /** `load()` up to the awaited request. Without a route id nothing is
        sent and nothing changes, so a page that started loading keeps
        showing "Loading…". */
    method StartLoad() returns (req: Option<Request>)
      modifies this
      ensures !Truthy(idSource) ==>
                req.None? && loading == old(loading) && error == old(error) && View() == old(View())
      ensures Truthy(idSource) ==>
                req == Some(SourceRequest(GetSource(idSource.value))) && loading && error.None? &&
                View() == Loading
      ensures row == old(row) && editOpen == old(editOpen)
    {
      if !Truthy(idSource) {
        return None;
      }
      loading := true;
      error := None;
      req := Some(SourceRequest(GetSource(idSource.value)));
    }

    /** The rest of `load`: the row is the response body on success; on
        failure the message falls back to "Failed to load". Loading ends
        either way, and the page then shows the source or the message; an
        empty message from the server is no error to the page, which then
        shows the source it had or "Not found". */
    method FinishLoad(outcome: Outcome<Source>)
      modifies this
      ensures !loading && editOpen == old(editOpen)
      ensures outcome.Ok? ==> row == Some(outcome.value) && error == old(error)
      ensures outcome.Err? ==> error == Some(NullishMessage(outcome.failure, LoadFailed)) && row == old(row)
      ensures outcome.Ok? && !Truthy(old(error)) ==> View() == Details(outcome.value)
      ensures outcome.Err? && NullishMessage(outcome.failure, LoadFailed) != "" ==>
                View() == Failed(NullishMessage(outcome.failure, LoadFailed))
      ensures outcome.Err? && NullishMessage(outcome.failure, LoadFailed) == "" ==>
                View() == if old(row).Some? then Details(old(row).value) else NotFound
    {
      if outcome.Ok? {
        row := Some(outcome.value);
      } else {
        error := Some(NullishMessage(outcome.failure, LoadFailed));
      }
      loading := false;
    }

    /** `doDelete`: nothing without a row or without confirmation;
        otherwise the source is deleted and, once that succeeds, the
        browser goes back. */
    method DoDelete(confirmed: bool, deleteOk: bool) returns (effects: seq<DetailEffect>)
      ensures row.None? || !confirmed ==> effects == []
      ensures row.Some? && confirmed ==>
                |effects| >= 1 && effects[0] == Send(SourceRequest(DeleteSource(row.value.idSource)))
      ensures row.Some? && confirmed && deleteOk ==> effects == [effects[0], GoBack]
      ensures row.Some? && confirmed && !deleteOk ==> effects == [effects[0]]
    {
      if row.None? || !confirmed {
        return [];
      }
      effects := [Send(SourceRequest(DeleteSource(row.value.idSource)))];
      if deleteOk {
        effects := effects + [GoBack];
      }
    }

    /** The Edit button and the dialog's `onClose`. */
    method SetEditOpen(open: bool)
      modifies this
      ensures editOpen == open
      ensures row == old(row) && loading == old(loading) && error == old(error)
    {
      editOpen := open;
    }

    /** The dialog's `onSave`, offered only once the source is shown: the
        payload is put to the shown source's id, and a successful write
        reloads the page. */
    method SaveEdit(saveOk: bool) returns (reqs: seq<Request>)
      requires row.Some?
      modifies this
      ensures |reqs| >= 1 && reqs[0] == SourceRequest(PutSource(old(row).value.idSource))
      ensures !saveOk ==> reqs == [reqs[0]] && loading == old(loading) && error == old(error)
      ensures saveOk && !Truthy(idSource) ==> reqs == [reqs[0]] && View() == old(View())
      ensures saveOk && Truthy(idSource) ==>
                reqs == [reqs[0], SourceRequest(GetSource(idSource.value))] && View() == Loading
      ensures row == old(row) && editOpen == old(editOpen)
    {
      reqs := [SourceRequest(PutSource(row.value.idSource))];
      if saveOk {
        var reload := StartLoad();
        if reload.Some? {
          reqs := reqs + [reload.value];
        }
      }
    }
  }
}
