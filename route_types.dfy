/** The shape of a route entry (src/types/route/appRoute.ts). */
module RouteTypes {
  import opened Wrappers

  /** The page component a route renders. */
  datatype Page =
    | SignInSidePage | SignInPage | SignUpPage
    | AuthorsPage | AuthorPage
    | GenresPage | GenrePage
    | HomePage | NotificationPage | SettingsPage
    | SourcesPage | SourcePage

  /** `AppRoute`: `requiresAuth` is optional, so it may be absent. Nested
      `children` are never used by the tables and are not modelled. */
  datatype Route = Route(path: string, requiresAuth: Option<bool>, element: Page)

  /** `!appRoute.requiresAuth`: false and absent both mean "no login". */
  predicate IsUnAuth(r: Route) {
    r.requiresAuth != Some(true)
  }
}
