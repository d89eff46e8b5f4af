/** src/modules/genre/services/genre.service.ts: the method and URL of
    every `GenreService` operation. */
module GenreService {
  import opened Wrappers
  import opened Text
  import opened Http

  const ResourceUrl: string := "/genre"

  datatype GenreOp =
    | GetGenres(page: Option<int>, size: Option<int>, name: Option<string>)
    | GetGenre(idGenre: string)
    | PostGenre
    | PutGenre(idGenre: string)
    | DeleteMultiGenre
    | DeleteGenre(idGenre: string)
    | UploadGenre(source: string)

  /** The request each operation sends. Every request stays under
      "/genre", only the reads are GETs, and only the upload is
      multipart. */
  function GenreRequest(op: GenreOp): (r: Request)
    ensures StartsWith(r.url, ResourceUrl)
    ensures r.verb == Get <==> op.GetGenres? || op.GetGenre?
    ensures r.multipart <==> op.UploadGenre?
  {
    match op
    case GetGenres(page, size, name) => Call(Get, ListUrl(ResourceUrl, page, size, name))
    case GetGenre(id) => Call(Get, ResourcePath(ResourceUrl, id))
    case PostGenre => Call(Post, ResourceUrl)
    case PutGenre(id) => Call(Put, ResourcePath(ResourceUrl, id))
    case DeleteMultiGenre => Call(Post, ResourceUrl + "/delete")
    case DeleteGenre(id) => Call(Delete, ResourcePath(ResourceUrl, id))
    case UploadGenre(source) => Request(Post, ResourceUrl + "/upload/" + source, true)
  }

  /** What each reading or item operation sends: the list query with its
      defaults, and one item path for get, put and delete, told apart by
      the method. */
  lemma GenreRequests(page: Option<int>, size: Option<int>, name: Option<string>, idGenre: string)
    ensures GenreRequest(GetGenres(page, size, name)) == Call(Get, ListUrl("/genre", page, size, name))
    ensures GenreRequest(GetGenre(idGenre)).url == GenreRequest(PutGenre(idGenre)).url == GenreRequest(DeleteGenre(idGenre)).url
    ensures IdOfResourcePath("/genre", GenreRequest(GetGenre(idGenre)).url) == Some(idGenre)
    ensures GenreRequest(GetGenre(idGenre)).verb == Get
    ensures GenreRequest(PutGenre(idGenre)).verb == Put
    ensures GenreRequest(DeleteGenre(idGenre)).verb == Delete
  {
    ResourcePathRoundTrip(ResourceUrl, idGenre);
  }

  /** The collection writes: create posts to the collection, bulk delete
      posts to `/genre/delete`, and the upload is a multipart post under
      `/genre/upload/`. */
  lemma GenreWriteRequests(source: string)
    ensures GenreRequest(PostGenre) == Call(Post, "/genre")
    ensures GenreRequest(DeleteMultiGenre) == Call(Post, "/genre/delete")
    ensures GenreRequest(UploadGenre(source)) == Request(Post, "/genre/upload/" + source, true)
  {
    assert ResourceUrl + "/upload/" + source == "/genre/upload/" + source;
  }

  /** Every request identifies its operation and its arguments (list
      arguments up to their defaults). */
  lemma GenreRequestIdentifiesOperation(a: GenreOp, b: GenreOp)
    requires GenreRequest(a) == GenreRequest(b)
    ensures a.GetGenres? <==> b.GetGenres?
    ensures !a.GetGenres? ==> a == b
    ensures a.GetGenres? ==> PageOr(a.page) == PageOr(b.page) && SizeOr(a.size) == SizeOr(b.size) && NameOr(a.name) == NameOr(b.name)
  {
    match a
    case GetGenres(page, size, name) =>
      if b.GetGenres? {
        ListUrlInjective(ResourceUrl, page, size, name, b.page, b.size, b.name);
      } else if b.GetGenre? {
        ListUrlIsNotItemUrl(ResourceUrl, page, size, name, b.idGenre);
      }
    case GetGenre(id) =>
      if b.GetGenres? {
        ListUrlIsNotItemUrl(ResourceUrl, b.page, b.size, b.name, id);
      } else if b.GetGenre? {
        ResourcePathInjective(ResourceUrl, id, b.idGenre);
      }
    case PutGenre(id) =>
      if b.PutGenre? {
        ResourcePathInjective(ResourceUrl, id, b.idGenre);
      }
    case DeleteGenre(id) =>
      if b.DeleteGenre? {
        ResourcePathInjective(ResourceUrl, id, b.idGenre);
      }
    case PostGenre =>
      assert |GenreRequest(DeleteMultiGenre).url| != |ResourceUrl|;
    case DeleteMultiGenre =>
      assert |GenreRequest(PostGenre).url| != |GenreRequest(a).url|;
    case UploadGenre(source) =>
      if b.UploadGenre? {
        assert source == GenreRequest(a).url[|"/genre/upload/"|..] == b.source;
      }
  }
}
