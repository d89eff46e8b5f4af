/** src/modules/genre/GenresPage.tsx: the server-paged genre list with
    its add, edit, delete and upload actions. Each awaited service call is
    a parameter saying how it settled; the requests the page sends are
    returned in order. */
module GenresPage {
  import opened Wrappers
  import opened Text
  import opened Decimal
  import opened Entities
  import opened Http
  import opened GenreService
  import opened GenreRoutes

  /** The pagination of the first render, which the row actions keep. */
  const FirstPage: int := 0
  const FirstPageSize: int := 25
  const LoadFailed: string := "Failed to load genres"

  /** `GenreService.getGenres(page, pageSize)`: no name filter. The
      load is a plain GET of the genre list query. */
  function LoadRequest(page: int, pageSize: int): (req: Request)
    ensures req.verb == Get && !req.multipart
    ensures StartsWith(req.url, ResourceUrl + "?page=")
  {
    GenreRequest(GetGenres(Some(page), Some(pageSize), None))
  }

  /** The list request asks for the given page, for the given page size
      (100 in place of a size of 0), with an empty name filter. */
  lemma LoadRequestAsks(page: int, pageSize: int)
    ensures var q := LoadRequest(page, pageSize).url[|ResourceUrl| + 1..];
            LoadRequest(page, pageSize).verb == Get &&
            Split(q, '&') == ["page=" + IntToString(page),
                              "size=" + IntToString(if pageSize == 0 then 100 else pageSize), "name="]
  {
    assert LoadRequest(page, pageSize).url == ListUrl(ResourceUrl, Some(page), Some(pageSize), None);
    assert PageOr(Some(page)) == page;
    assert SizeOr(Some(pageSize)) == if pageSize == 0 then 100 else pageSize;
    ListUrlQuery(ResourceUrl, Some(page), Some(pageSize), None);
    assert "name=" + NameOr(None) == "name=";
  }

  /** Two loads send the same request only when they ask for the same
      page and the same effective size. */
  lemma LoadRequestInjective(page1: int, size1: int, page2: int, size2: int)
    requires LoadRequest(page1, size1) == LoadRequest(page2, size2)
    ensures page1 == page2 && SizeOr(Some(size1)) == SizeOr(Some(size2))
  {
    ListUrlInjective(ResourceUrl, Some(page1), Some(size1), None, Some(page2), Some(size2), None);
  }

  /** Away from the first page of 25, the first-render reload asks for
      something other than what the grid shows. */
  lemma FirstRenderReloadDiffers(page: int, pageSize: int)
    requires page != FirstPage || pageSize != FirstPageSize
    ensures LoadRequest(FirstPage, FirstPageSize) != LoadRequest(page, pageSize)
  {
    if LoadRequest(FirstPage, FirstPageSize) == LoadRequest(page, pageSize) {
      LoadRequestInjective(FirstPage, FirstPageSize, page, pageSize);
    }
  }

  /** The "Open details" link, `/genres/${idGenre}`, is the detail route
      the row double-click navigates to. */
  lemma DetailsLinkIsRoute(idGenre: string)
    ensures "/genres/" + idGenre == PathGenre(idGenre)
  {
  }

  class Page {
    var page: int
    var pageSize: int
    var rows: seq<Genre>
    var rowCount: int
    var loading: bool
    var error: Option<string>
    var dialogOpen: bool
    var uploadOpen: bool
    var editRow: Option<Genre>

    constructor()
      ensures page == FirstPage && pageSize == FirstPageSize && rows == [] && rowCount == 0
      ensures loading && error.None? && !dialogOpen && !uploadOpen && editRow.None?
    {
      page := FirstPage;
      pageSize := FirstPageSize;
      rows := [];
      rowCount := 0;
      loading := true;
      error := None;
      dialogOpen := false;
      uploadOpen := false;
      editRow := None;
    }

    /** `load(p, s)` up to the awaited request: loading, with no error. */
    method StartLoad(p: int, s: int) returns (req: Request)
      modifies this
      ensures req == LoadRequest(p, s) && loading && error.None?
      ensures page == old(page) && pageSize == old(pageSize) && rows == old(rows) && rowCount == old(rowCount)
      ensures dialogOpen == old(dialogOpen) && uploadOpen == old(uploadOpen) && editRow == old(editRow)
    {
      loading := true;
      error := None;
      req := LoadRequest(p, s);
    }

    /** The rest of `load`: on success the rows are the page's content, the
        count is the number of rows on this page (not the total) and the
        pagination is the server's; on failure the message falls back to
        "Failed to load genres". Loading ends either way. */
    method FinishLoad(outcome: Outcome<Pagination<Genre>>)
      modifies this
      ensures !loading
      ensures outcome.Ok? ==>
                page == outcome.value.currentPage && pageSize == outcome.value.pageSize &&
                rows == outcome.value.content && rowCount == |outcome.value.content| && error == old(error)
      ensures outcome.Err? ==>
                error == Some(NullishMessage(outcome.failure, LoadFailed)) &&
                page == old(page) && pageSize == old(pageSize) && rows == old(rows) && rowCount == old(rowCount)
      ensures dialogOpen == old(dialogOpen) && uploadOpen == old(uploadOpen) && editRow == old(editRow)
    {
      if outcome.Ok? {
        page := outcome.value.currentPage;
        pageSize := outcome.value.pageSize;
        rows := outcome.value.content;
        rowCount := |outcome.value.content|;
      } else {
        error := Some(NullishMessage(outcome.failure, LoadFailed));
      }
      loading := false;
    }

    /** The grid's `onPaginationModelChange`, and the load its effect
        starts. */
    method ChangePagination(p: int, s: int) returns (req: Request)
      modifies this
      ensures page == p && pageSize == s && req == LoadRequest(p, s) && loading && error.None?
      ensures rows == old(rows) && rowCount == old(rowCount)
      ensures dialogOpen == old(dialogOpen) && uploadOpen == old(uploadOpen) && editRow == old(editRow)
    {
      page := p;
      pageSize := s;
      req := StartLoad(p, s);
    }

    /** The Refresh button: reload the current page. */
    method Refresh() returns (req: Request)
      modifies this
      ensures req == LoadRequest(page, pageSize) && loading && error.None?
      ensures page == old(page) && pageSize == old(pageSize) && rows == old(rows) && rowCount == old(rowCount)
      ensures dialogOpen == old(dialogOpen) && uploadOpen == old(uploadOpen) && editRow == old(editRow)
    {
      req := StartLoad(page, pageSize);
    }

    /** "Add Genre": the dialog opens with no row to edit. */
    method Add()
      modifies this
      ensures editRow.None? && dialogOpen
      ensures page == old(page) && pageSize == old(pageSize) && rows == old(rows) && rowCount == old(rowCount)
      ensures loading == old(loading) && error == old(error) && uploadOpen == old(uploadOpen)
    {
      editRow := None;
      dialogOpen := true;
    }

    /** A row's Edit button: the dialog opens on that row. */
    method Edit(row: Genre)
      modifies this
      ensures editRow == Some(row) && dialogOpen
      ensures page == old(page) && pageSize == old(pageSize) && rows == old(rows) && rowCount == old(rowCount)
      ensures loading == old(loading) && error == old(error) && uploadOpen == old(uploadOpen)
    {
      editRow := Some(row);
      dialogOpen := true;
    }

    /** The dialog's `onClose`. */
    method CloseDialog()
      modifies this
      ensures !dialogOpen
      ensures page == old(page) && pageSize == old(pageSize) && rows == old(rows) && rowCount == old(rowCount)
      ensures loading == old(loading) && error == old(error) && uploadOpen == old(uploadOpen) && editRow == old(editRow)
    {
      dialogOpen := false;
    }

    /** "Upload File" opens the upload dialog; its `onClose` shuts it. */
    method SetUploadOpen(open: bool)
      modifies this
      ensures uploadOpen == open
      ensures page == old(page) && pageSize == old(pageSize) && rows == old(rows) && rowCount == old(rowCount)
      ensures loading == old(loading) && error == old(error) && dialogOpen == old(dialogOpen) && editRow == old(editRow)
    {
      uploadOpen := open;
    }

    /** The dialog's `onSave`, with `saveOk` saying whether the put or post
        succeeded: an edit puts to the edited row's id, an add posts, and
        only a successful save reloads the current page. */
    method Save(saveOk: bool) returns (reqs: seq<Request>)
      modifies this
      ensures |reqs| >= 1
      ensures editRow.Some? ==> reqs[0] == GenreRequest(PutGenre(editRow.value.idGenre))
      ensures editRow.None? ==> reqs[0] == GenreRequest(PostGenre)
      ensures saveOk ==> reqs == [reqs[0], LoadRequest(page, pageSize)] && loading && error.None?
      ensures !saveOk ==> reqs == [reqs[0]] && loading == old(loading) && error == old(error)
      ensures page == old(page) && pageSize == old(pageSize) && rows == old(rows) && rowCount == old(rowCount)
      ensures dialogOpen == old(dialogOpen) && uploadOpen == old(uploadOpen) && editRow == old(editRow)
    {
      var write := if editRow.Some? then GenreRequest(PutGenre(editRow.value.idGenre)) else GenreRequest(PostGenre);
      reqs := [write];
      if saveOk {
        var reload := StartLoad(page, pageSize);
        reqs := reqs + [reload];
      }
    }

    /** A row's Delete button as written: after confirmation the row is
        deleted, and a successful delete reloads the pagination captured at
        the first render, whatever page the grid is on. */
    method DeleteRowAsWritten(row: Genre, confirmed: bool, deleteOk: bool) returns (reqs: seq<Request>)
      modifies this
      ensures !confirmed ==> reqs == [] && loading == old(loading) && error == old(error)
      ensures confirmed && !deleteOk ==>
                reqs == [GenreRequest(DeleteGenre(row.idGenre))] && loading == old(loading) && error == old(error)
      ensures confirmed && deleteOk ==>
                reqs == [GenreRequest(DeleteGenre(row.idGenre)), LoadRequest(FirstPage, FirstPageSize)] &&
                loading && error.None?
      ensures page == old(page) && pageSize == old(pageSize) && rows == old(rows) && rowCount == old(rowCount)
      ensures dialogOpen == old(dialogOpen) && uploadOpen == old(uploadOpen) && editRow == old(editRow)
    {
      if !confirmed {
        return [];
      }
      reqs := [GenreRequest(DeleteGenre(row.idGenre))];
      if deleteOk {
        var reload := StartLoad(FirstPage, FirstPageSize);
        reqs := reqs + [reload];
      }
    }

    /** A row's Delete button reloading the page on show, as every other
        reload of the page does. */
    method DeleteRow(row: Genre, confirmed: bool, deleteOk: bool) returns (reqs: seq<Request>)
      modifies this
      ensures !confirmed ==> reqs == [] && loading == old(loading) && error == old(error)
      ensures confirmed && !deleteOk ==>
                reqs == [GenreRequest(DeleteGenre(row.idGenre))] && loading == old(loading) && error == old(error)
      ensures confirmed && deleteOk ==>
                reqs == [GenreRequest(DeleteGenre(row.idGenre)), LoadRequest(page, pageSize)] &&
                loading && error.None?
      ensures page == old(page) && pageSize == old(pageSize) && rows == old(rows) && rowCount == old(rowCount)
      ensures dialogOpen == old(dialogOpen) && uploadOpen == old(uploadOpen) && editRow == old(editRow)
    {
      if !confirmed {
        return [];
      }
      reqs := [GenreRequest(DeleteGenre(row.idGenre))];
      if deleteOk {
        var reload := StartLoad(page, pageSize);
        reqs := reqs + [reload];
      }
    }

    /** The upload dialog's `onUploaded`: reload the current page. */
    method Uploaded() returns (req: Request)
      modifies this
      ensures req == LoadRequest(page, pageSize) && loading && error.None?
      ensures page == old(page) && pageSize == old(pageSize) && rows == old(rows) && rowCount == old(rowCount)
      ensures dialogOpen == old(dialogOpen) && uploadOpen == old(uploadOpen) && editRow == old(editRow)
    {
      req := StartLoad(page, pageSize);
    }
  }
}
