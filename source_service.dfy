/** src/modules/source/services/source.service.ts: the method and URL of
    every `SourceService` operation. */
module SourceService {
  import opened Wrappers
  import opened Text
  import opened Http

  const ResourceUrl: string := "/source"

  datatype SourceOp =
    | GetSources
    | GetSource(idSource: string)
    | PostSource
    | PutSource(idSource: string)
    | DeleteSource(idSource: string)

  /** The request each operation sends. Every request stays under
      "/source", only the reads are GETs, create and update are both
      POSTs, and nothing is multipart. */
  function SourceRequest(op: SourceOp): (r: Request)
    ensures StartsWith(r.url, ResourceUrl)
    ensures r.verb == Get <==> op.GetSources? || op.GetSource?
    ensures r.verb == Post <==> op.PostSource? || op.PutSource?
    ensures !r.multipart
  {
    match op
    case GetSources => Call(Get, ResourceUrl)
    case GetSource(id) => Call(Get, ResourcePath(ResourceUrl, id))
    case PostSource => Call(Post, ResourceUrl)
    case PutSource(id) => Call(Post, ResourcePath(ResourceUrl, id))
    case DeleteSource(id) => Call(Delete, ResourcePath(ResourceUrl, id))
  }

  /** The list is fetched whole, with no paging query; the update is a POST
      (not a PUT) to the item path. */
  lemma SourceRequests(idSource: string)
    ensures SourceRequest(GetSources) == Call(Get, "/source")
    ensures SourceRequest(GetSource(idSource)).url == SourceRequest(PutSource(idSource)).url == SourceRequest(DeleteSource(idSource)).url
    ensures IdOfResourcePath("/source", SourceRequest(GetSource(idSource)).url) == Some(idSource)
    ensures SourceRequest(GetSource(idSource)).verb == Get
    ensures SourceRequest(PutSource(idSource)).verb == Post
    ensures SourceRequest(DeleteSource(idSource)).verb == Delete
    ensures SourceRequest(PostSource) == Call(Post, "/source")
  {
    ResourcePathRoundTrip(ResourceUrl, idSource);
  }

  /** Even with the update posted, every request identifies its operation
      and its id: create and update differ in their URL. */
  lemma SourceRequestIdentifiesOperation(a: SourceOp, b: SourceOp)
    requires SourceRequest(a) == SourceRequest(b)
    ensures a == b
  {
    match a
    case GetSource(id) =>
      if b.GetSource? {
        ResourcePathInjective(ResourceUrl, id, b.idSource);
      }
    case PutSource(id) =>
      if b.PutSource? {
        ResourcePathInjective(ResourceUrl, id, b.idSource);
      }
    case DeleteSource(id) =>
      if b.DeleteSource? {
        ResourcePathInjective(ResourceUrl, id, b.idSource);
      }
    case GetSources =>
    case PostSource =>
  }
}
