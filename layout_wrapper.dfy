/** src/components/layout/LayoutWrapper.tsx: a page open without a login is
    rendered bare; every other page inside the application chrome. */
module LayoutWrapper {
  import opened Wrappers
  import opened RouteTypes
  import opened AppRoutes

  /** `pathname.replace(/\/$/, '')`: one trailing slash, if any, is removed. */
  function StripTrailingSlash(p: string): (r: string)
    ensures |p| > 0 && p[|p| - 1] == '/' ==> r == p[..|p| - 1]
    ensures !(|p| > 0 && p[|p| - 1] == '/') ==> r == p
  {
    if |p| > 0 && p[|p| - 1] == '/' then p[..|p| - 1] else p
  }

  /** `routes.some(route => route.path === path)`, scanned left to right. */
  function SomePathIs(routes: seq<Route>, path: string): bool
    decreases |routes|
  {
    |routes| > 0 && (routes[0].path == path || SomePathIs(routes[1..], path))
  }

  lemma {:induction false} SomePathIsIff(routes: seq<Route>, path: string)
    ensures SomePathIs(routes, path) <==> exists i :: 0 <= i < |routes| && routes[i].path == path
    decreases |routes|
  {
    if |routes| > 0 {
      SomePathIsIff(routes[1..], path);
      if SomePathIs(routes[1..], path) {
        var i :| 0 <= i < |routes[1..]| && routes[1..][i].path == path;
        assert routes[i + 1].path == path;
      }
      if exists i :: 0 <= i < |routes| && routes[i].path == path {
        var i :| 0 <= i < |routes| && routes[i].path == path;
        if i > 0 {
          assert routes[1..][i - 1].path == path;
        }
      }
    }
  }

  /** What the wrapper renders around the matched page. */
  datatype Chrome = Bare | Chromed

  /** The wrapper's choice for a route table and a location. */
  function ChromeOf(routes: seq<Route>, pathname: string): Chrome {
    if SomePathIs(UnAuthRoutesOf(routes), StripTrailingSlash(pathname)) then Bare else Chromed
  }

  /** The page is bare exactly when some route of the table that needs no
      login has the location, less one trailing slash, as its path. */
  lemma ChromeOfIff(routes: seq<Route>, pathname: string)
    ensures ChromeOf(routes, pathname) == Bare <==>
              exists r :: r in routes && IsUnAuth(r) && r.path == StripTrailingSlash(pathname)
  {
    var p := StripTrailingSlash(pathname);
    var un := UnAuthRoutesOf(routes);
    SomePathIsIff(un, p);
    if ChromeOf(routes, pathname) == Bare {
      var i :| 0 <= i < |un| && un[i].path == p;
      UnAuthRoutesOfMembers(routes, un[i]);
    } else {
      forall r | r in routes && IsUnAuth(r) ensures r.path != p {
        UnAuthRoutesOfMembers(routes, r);
      }
    }
  }

  /** `LayoutWrapper` on the application's table. */
  function Layout(pathname: string): Chrome {
    ChromeOf(AllRoutes, pathname)
  }

  /** The login, sign-in and sign-up pages, with or without one trailing
      slash, are the only bare pages. */
  lemma LayoutIff(pathname: string)
    ensures Layout(pathname) == Bare <==>
              StripTrailingSlash(pathname) in ["/login", "/sign-in", "/sign-up"]
  {
    UnAuthRoutesAreAuthentication();
    SomePathIsIff(UnAuthRoutes(), StripTrailingSlash(pathname));
  }

  /** One trailing slash is tolerated, two are not, and a sub-path or the
      root is not an authentication page. */
  lemma LayoutExamples()
    ensures Layout("/sign-in/") == Bare
    ensures Layout("/login") == Bare
    ensures Layout("/sign-in//") == Chromed
    ensures Layout("/sign-in/x") == Chromed
    ensures Layout("/") == Chromed
    ensures Layout("/authors/42") == Chromed
  {
    LayoutIff("/sign-in/");
    assert StripTrailingSlash("/sign-in/") == "/sign-in";
    LayoutIff("/login");
    LayoutIff("/sign-in//");
    assert StripTrailingSlash("/sign-in//") == "/sign-in/";
    LayoutIff("/sign-in/x");
    LayoutIff("/");
    LayoutIff("/authors/42");
  }
}
