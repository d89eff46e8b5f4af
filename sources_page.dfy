/** src/modules/source/SourcesPage.tsx: the unpaged source list with its
    add, edit and delete actions. As on the other list pages, awaited
    service calls are parameters and the requests sent are returned. */
module SourcesPage {
  import opened Wrappers
  import opened Entities
  import opened Http
  import opened SourceService
  import opened SourceRoutes

  const LoadFailed: string := "Failed to load sources"

  /** `SourceService.getSources()`: the whole collection, unpaged. */
  function LoadRequest(): (req: Request)
    ensures req.verb == Get && req.url == ResourceUrl && !req.multipart
  {
    SourceRequest(GetSources)
  }

  /** The "Open details" link, `/sources/${idSource}`, is the detail route
      the row double-click navigates to. */
  lemma DetailsLinkIsRoute(idSource: string)
    ensures "/sources/" + idSource == PathSource(idSource)
  {
  }

  class Page {
    var rows: seq<Source>
    var loading: bool
    var error: Option<string>
    var dialogOpen: bool
    var editRow: Option<Source>

    constructor()
      ensures rows == [] && loading && error.None? && !dialogOpen && editRow.None?
    {
      rows := [];
      loading := true;
      error := None;
      dialogOpen := false;
      editRow := None;
    }

    /** `load()` up to the awaited request: loading, with no error. */
    method StartLoad() returns (req: Request)
      modifies this
      ensures req == LoadRequest() && loading && error.None?
      ensures rows == old(rows) && dialogOpen == old(dialogOpen) && editRow == old(editRow)
    {
      loading := true;
      error := None;
      req := LoadRequest();
    }

    /** The rest of `load`: the rows are the response body on success; on
        failure the message falls back to "Failed to load sources" and
        the rows stay. Loading ends either way. */
    method FinishLoad(outcome: Outcome<seq<Source>>)
      modifies this
      ensures !loading
      ensures outcome.Ok? ==> rows == outcome.value && error == old(error)
      ensures outcome.Err? ==> error == Some(NullishMessage(outcome.failure, LoadFailed)) && rows == old(rows)
      ensures dialogOpen == old(dialogOpen) && editRow == old(editRow)
    {
      if outcome.Ok? {
        rows := outcome.value;
      } else {
        error := Some(NullishMessage(outcome.failure, LoadFailed));
      }
      loading := false;
    }

    /** "Add Source": the dialog opens with no row to edit. */
    method Add()
      modifies this
      ensures editRow.None? && dialogOpen
      ensures rows == old(rows) && loading == old(loading) && error == old(error)
    {
      editRow := None;
      dialogOpen := true;
    }

    /** A row's Edit button: the dialog opens on that row. */
    method Edit(row: Source)
      modifies this
      ensures editRow == Some(row) && dialogOpen
      ensures rows == old(rows) && loading == old(loading) && error == old(error)
    {
      editRow := Some(row);
      dialogOpen := true;
    }

    /** The dialog's `onClose`. */
    method CloseDialog()
      modifies this
      ensures !dialogOpen
      ensures rows == old(rows) && loading == old(loading) && error == old(error) && editRow == old(editRow)
    {
      dialogOpen := false;
    }

    /** What the dialog is opened with: `editRow ?? undefined`, whose
        title and form follow the edited row. */
    function DialogInitial(): (d: Option<SourceDraft>)
      reads this
      ensures d.Some? <==> editRow.Some?
      ensures d.Some? ==> d.value.idSource == Some(editRow.value.idSource) && d.value.name == Some(editRow.value.name)
    {
      if editRow.Some? then Some(SourceDraftOf(editRow.value)) else None
    }

    /** The dialog's `onSave`: an edit writes to the edited row's id (with
        the service's POST), an add posts to the collection, and only a
        successful write reloads the list. */
    method Save(saveOk: bool) returns (reqs: seq<Request>)
      modifies this
      ensures |reqs| >= 1 && reqs[0].verb == Post
      ensures editRow.Some? ==> reqs[0] == SourceRequest(PutSource(editRow.value.idSource))
      ensures editRow.None? ==> reqs[0] == SourceRequest(PostSource)
      ensures saveOk ==> reqs == [reqs[0], LoadRequest()] && loading && error.None?
      ensures !saveOk ==> reqs == [reqs[0]] && loading == old(loading) && error == old(error)
      ensures rows == old(rows) && dialogOpen == old(dialogOpen) && editRow == old(editRow)
    {
      var write := if editRow.Some? then SourceRequest(PutSource(editRow.value.idSource)) else SourceRequest(PostSource);
      reqs := [write];
      if saveOk {
        var reload := StartLoad();
        reqs := reqs + [reload];
      }
    }

    /** A row's Delete button: after confirmation the row is deleted, and a
        successful delete reloads the list. */
    method DeleteRow(row: Source, confirmed: bool, deleteOk: bool) returns (reqs: seq<Request>)
      modifies this
      ensures !confirmed ==> reqs == [] && loading == old(loading) && error == old(error)
      ensures confirmed && !deleteOk ==>
                reqs == [SourceRequest(DeleteSource(row.idSource))] && loading == old(loading) && error == old(error)
      ensures confirmed && deleteOk ==>
                reqs == [SourceRequest(DeleteSource(row.idSource)), LoadRequest()] && loading && error.None?
      ensures rows == old(rows) && dialogOpen == old(dialogOpen) && editRow == old(editRow)
    {
      if !confirmed {
        return [];
      }
      reqs := [SourceRequest(DeleteSource(row.idSource))];
      if deleteOk {
        var reload := StartLoad();
        reqs := reqs + [reload];
      }
    }
  }
}
