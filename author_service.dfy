/** src/modules/author/services/author.service.ts: the method and URL of
    every `AuthorService` operation. */
module AuthorService {
  import opened Wrappers
  import opened Text
  import opened Http

  const ResourceUrl: string := "/author"

  /** The operations, with the arguments that reach the URL (request
      bodies are not modelled). */
  datatype AuthorOp =
    | GetAuthors(page: Option<int>, size: Option<int>, name: Option<string>)
    | GetAuthor(idAuthor: string)
    | PostAuthor
    | PutAuthor(idAuthor: string)
    | DeleteMultiAuthor
    | DeleteAuthor(idAuthor: string)
    | UploadAuthor(source: string)

  /** The request each operation sends, with bulk delete going to the
      `/delete` endpoint as `deleteMultiGenre` does. Every request stays
      under "/author", only the reads are GETs, and only the upload is
      multipart. */
  function AuthorRequest(op: AuthorOp): (r: Request)
    ensures StartsWith(r.url, ResourceUrl)
    ensures r.verb == Get <==> op.GetAuthors? || op.GetAuthor?
    ensures r.multipart <==> op.UploadAuthor?
  {
    match op
    case GetAuthors(page, size, name) => Call(Get, ListUrl(ResourceUrl, page, size, name))
    case GetAuthor(id) => Call(Get, ResourcePath(ResourceUrl, id))
    case PostAuthor => Call(Post, ResourceUrl)
    case PutAuthor(id) => Call(Put, ResourcePath(ResourceUrl, id))
    case DeleteMultiAuthor => Call(Post, ResourceUrl + "/delete")
    case DeleteAuthor(id) => Call(Delete, ResourcePath(ResourceUrl, id))
    case UploadAuthor(source) => Request(Post, ResourceUrl + "/upload/" + source, true)
  }

  /** The requests as the source writes them: bulk delete posts to the
      bare resource URL, and every other operation sends what the
      corrected table sends. */
  function AuthorRequestAsWritten(op: AuthorOp): (r: Request)
    ensures !op.DeleteMultiAuthor? ==> r == AuthorRequest(op)
    ensures op.DeleteMultiAuthor? ==> r == AuthorRequest(PostAuthor)
  {
    if op.DeleteMultiAuthor? then Call(Post, ResourceUrl) else AuthorRequest(op)
  }

  /** What each reading or item operation sends: the list query with its
      defaults, and one item path for get, put and delete, told apart by
      the method. */
  lemma AuthorRequests(page: Option<int>, size: Option<int>, name: Option<string>, idAuthor: string)
    ensures AuthorRequest(GetAuthors(page, size, name)) == Call(Get, ListUrl("/author", page, size, name))
    ensures AuthorRequest(GetAuthor(idAuthor)).url == AuthorRequest(PutAuthor(idAuthor)).url == AuthorRequest(DeleteAuthor(idAuthor)).url
    ensures IdOfResourcePath("/author", AuthorRequest(GetAuthor(idAuthor)).url) == Some(idAuthor)
    ensures AuthorRequest(GetAuthor(idAuthor)).verb == Get
    ensures AuthorRequest(PutAuthor(idAuthor)).verb == Put
    ensures AuthorRequest(DeleteAuthor(idAuthor)).verb == Delete
  {
    ResourcePathRoundTrip(ResourceUrl, idAuthor);
  }

  /** The collection writes: create posts to the collection,
      and the upload is a multipart post under `/author/upload/`. */
  lemma AuthorWriteRequests(source: string)
    ensures AuthorRequest(PostAuthor) == Call(Post, "/author")
    ensures AuthorRequest(UploadAuthor(source)) == Request(Post, "/author/upload/" + source, true)
  {
    assert ResourceUrl + "/upload/" + source == "/author/upload/" + source;
  }

  /** As written, bulk delete and create send the same method to the same
      URL, so the server cannot tell them apart. */
  lemma DeleteMultiAuthorAsWrittenIsCreate()
    ensures AuthorRequestAsWritten(DeleteMultiAuthor) == AuthorRequestAsWritten(PostAuthor)
    ensures AuthorRequestAsWritten(DeleteMultiAuthor) == Call(Post, "/author")
  {
  }

  /** With bulk delete on its own endpoint, every request identifies its
      operation and its arguments (list arguments up to their defaults). */
  lemma AuthorRequestIdentifiesOperation(a: AuthorOp, b: AuthorOp)
    requires AuthorRequest(a) == AuthorRequest(b)
    ensures a.GetAuthors? <==> b.GetAuthors?
    ensures !a.GetAuthors? ==> a == b
    ensures a.GetAuthors? ==> PageOr(a.page) == PageOr(b.page) && SizeOr(a.size) == SizeOr(b.size) && NameOr(a.name) == NameOr(b.name)
  {
    match a
    case GetAuthors(page, size, name) =>
      if b.GetAuthors? {
        ListUrlInjective(ResourceUrl, page, size, name, b.page, b.size, b.name);
      } else if b.GetAuthor? {
        ListUrlIsNotItemUrl(ResourceUrl, page, size, name, b.idAuthor);
      }
    case GetAuthor(id) =>
      if b.GetAuthors? {
        ListUrlIsNotItemUrl(ResourceUrl, b.page, b.size, b.name, id);
      } else if b.GetAuthor? {
        ResourcePathInjective(ResourceUrl, id, b.idAuthor);
      }
    case PutAuthor(id) =>
      if b.PutAuthor? {
        ResourcePathInjective(ResourceUrl, id, b.idAuthor);
      }
    case DeleteAuthor(id) =>
      if b.DeleteAuthor? {
        ResourcePathInjective(ResourceUrl, id, b.idAuthor);
      }
    case PostAuthor =>
      assert |AuthorRequest(DeleteMultiAuthor).url| != |ResourceUrl|;
    case DeleteMultiAuthor =>
      assert |AuthorRequest(PostAuthor).url| != |AuthorRequest(a).url|;
    case UploadAuthor(source) =>
      if b.UploadAuthor? {
        assert source == AuthorRequest(a).url[|"/author/upload/"|..] == b.source;
      }
  }
}
