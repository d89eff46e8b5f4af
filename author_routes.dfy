/** src/modules/author/routes/author.route.ts: the author list and detail routes and
    their path builders. */
module AuthorRoutes {
  import opened Wrappers
  import opened Text
  import opened RouteTypes

  const Authors: string := "/authors"
  /** The router pattern of the detail page. */
  const AuthorPattern: string := "/authors/:idAuthor"

  function PathAuthors(): string { Authors }

  /** `${ROUTES_AUTHOR.authors}/${idAuthor}`: the detail path of one author. */
  function PathAuthor(idAuthor: string): (p: string)
    ensures IdOfResourcePath(Authors, p) == Some(idAuthor)
  {
    ResourcePath(Authors, idAuthor)
  }

  const AppRoutesAuthor: seq<Route> := [
    Route(Authors, Some(true), AuthorsPage),
    Route(AuthorPattern, Some(true), AuthorPage)
  ]

  /** Both entries require a login; the list path is what PathAuthors returns. */
  lemma AuthorTable()
    ensures PathAuthors() == "/authors"
    ensures |AppRoutesAuthor| == 2 && AppRoutesAuthor[0].path == PathAuthors()
    ensures forall r :: r in AppRoutesAuthor ==> !IsUnAuth(r)
  {
  }

  /** Different ids give different detail paths. */
  lemma PathAuthorInjective(id1: string, id2: string)
    requires PathAuthor(id1) == PathAuthor(id2)
    ensures id1 == id2
  {
    ResourcePathInjective(Authors, id1, id2);
  }
}
