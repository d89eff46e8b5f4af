/** src/modules/genre/routes/genre.route.ts: the genre list and detail routes and
    their path builders. */
module GenreRoutes {
  import opened Wrappers
  import opened Text
  import opened RouteTypes

  const Genres: string := "/genres"
  /** The router pattern of the detail page. */
  const GenrePattern: string := "/genres/:idGenre"

  function PathGenres(): string { Genres }

  /** `${ROUTES_GENRE.genres}/${idGenre}`: the detail path of one genre. */
  function PathGenre(idGenre: string): (p: string)
    ensures IdOfResourcePath(Genres, p) == Some(idGenre)
  {
    ResourcePath(Genres, idGenre)
  }

  const AppRoutesGenre: seq<Route> := [
    Route(Genres, Some(true), GenresPage),
    Route(GenrePattern, Some(true), GenrePage)
  ]

  /** Both entries require a login; the list path is what PathGenres returns. */
  lemma GenreTable()
    ensures PathGenres() == "/genres"
    ensures |AppRoutesGenre| == 2 && AppRoutesGenre[0].path == PathGenres()
    ensures forall r :: r in AppRoutesGenre ==> !IsUnAuth(r)
  {
  }

  /** Different ids give different detail paths. */
  lemma PathGenreInjective(id1: string, id2: string)
    requires PathGenre(id1) == PathGenre(id2)
    ensures id1 == id2
  {
    ResourcePathInjective(Genres, id1, id2);
  }
}
