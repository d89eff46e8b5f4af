/** src/modules/source/routes/source.route.ts: the source list and detail routes and
    their path builders. */
module SourceRoutes {
  import opened Wrappers
  import opened Text
  import opened RouteTypes

  const Sources: string := "/sources"
  /** The router pattern of the detail page. */
  const SourcePattern: string := "/sources/:idSource"

  function PathSources(): string { Sources }

  /** `${ROUTES_SOURCE.sources}/${idSource}`: the detail path of one source. */
  function PathSource(idSource: string): (p: string)
    ensures IdOfResourcePath(Sources, p) == Some(idSource)
  {
    ResourcePath(Sources, idSource)
  }

  const AppRoutesSource: seq<Route> := [
    Route(Sources, Some(true), SourcesPage),
    Route(SourcePattern, Some(true), SourcePage)
  ]

  /** Both entries require a login; the list path is what PathSources returns. */
  lemma SourceTable()
    ensures PathSources() == "/sources"
    ensures |AppRoutesSource| == 2 && AppRoutesSource[0].path == PathSources()
    ensures forall r :: r in AppRoutesSource ==> !IsUnAuth(r)
  {
  }

  /** Different ids give different detail paths. */
  lemma PathSourceInjective(id1: string, id2: string)
    requires PathSource(id1) == PathSource(id2)
    ensures id1 == id2
  {
    ResourcePathInjective(Sources, id1, id2);
  }
}
