/** src/routes.ts: the application's route table, put together from the
    feature modules in a fixed order, and the routes open without a login. */
module AppRoutes {
  import opened Wrappers
  import opened Seqs
  import opened RouteTypes
  import opened AuthenticationRoutes
  import opened AuthorRoutes
  import opened GenreRoutes
  import opened SourceRoutes

  /** The single-page modules: src/modules/home, notification and settings. */
  const Home: string := "/home"
  const Notification: string := "/notification"
  const Settings: string := "/settings"

  /** Paths of `ROUTES` that no table routes to (menu entries only). */
  const Analytics: string := "/analytics"
  const Dashboard: string := "/dashboard"
  const Assistance: string := "/assistance"
  const About: string := "/about"
  const Feedback: string := "/feedback"

  const AppRoutesHome: seq<Route> := [Route(Home, Some(true), HomePage)]
  const AppRoutesNotification: seq<Route> := [Route(Notification, Some(true), NotificationPage)]
  const AppRoutesSettings: seq<Route> := [Route(Settings, Some(true), SettingsPage)]

  /** `appRoutes`: the module tables in the order they are spread. */
  const AllRoutes: seq<Route> :=
    AppRoutesAuthentication + AppRoutesAuthor + AppRoutesGenre + AppRoutesHome
    + AppRoutesNotification + AppRoutesSettings + AppRoutesSource

  /** `filter(appRoute => !appRoute.requiresAuth)` over any route table. */
  function UnAuthRoutesOf(routes: seq<Route>): (r: seq<Route>)
    ensures |r| <= |routes|
    ensures forall i :: 0 <= i < |r| ==> IsUnAuth(r[i])
  {
    Filter(routes, IsUnAuth)
  }

  /** A route is kept exactly when it is in the table and needs no login,
      and the kept routes keep the table's order. */
  lemma UnAuthRoutesOfMembers(routes: seq<Route>, x: Route)
    ensures x in UnAuthRoutesOf(routes) <==> x in routes && IsUnAuth(x)
    ensures IsSubsequence(UnAuthRoutesOf(routes), routes)
  {
    FilterMembers(routes, IsUnAuth, x);
    FilterIsSubsequence(routes, IsUnAuth);
  }

  /** `getUnAuthRoutes()`. */
  function UnAuthRoutes(): seq<Route> {
    UnAuthRoutesOf(AllRoutes)
  }

  /** The table holds twelve routes, and the routes open without a login are
      exactly the three authentication pages, in their order. */
  lemma UnAuthRoutesAreAuthentication()
    ensures |AllRoutes| == 12
    ensures UnAuthRoutes() == AppRoutesAuthentication
    ensures |UnAuthRoutes()| == 3
    ensures UnAuthRoutes()[0].path == "/login"
    ensures UnAuthRoutes()[1].path == "/sign-in"
    ensures UnAuthRoutes()[2].path == "/sign-up"
  {
    var rest := AppRoutesAuthor + AppRoutesGenre + AppRoutesHome
      + AppRoutesNotification + AppRoutesSettings + AppRoutesSource;
    assert AllRoutes == AppRoutesAuthentication + rest;
    FilterAppend(AppRoutesAuthentication, rest, IsUnAuth);
    FilterAll(AppRoutesAuthentication, IsUnAuth);
    FilterNone(rest, IsUnAuth);
  }
}
