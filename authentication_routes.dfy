/** src/modules/authentication/routes/routes.ts: the three pages reachable
    without logging in. */
module AuthenticationRoutes {
  import opened Wrappers
  import opened RouteTypes

  const Login: string := "/login"
  const SignIn: string := "/sign-in"
  const SignUp: string := "/sign-up"

  function PathAuthenticationLogin(): string { Login }
  function PathAuthenticationSignIn(): string { SignIn }
  function PathAuthenticationSignUp(): string { SignUp }

  const AppRoutesAuthentication: seq<Route> := [
    Route(Login, Some(false), SignInSidePage),
    Route(SignIn, Some(false), SignInPage),
    Route(SignUp, Some(false), SignUpPage)
  ]

  /** The three paths are distinct, each helper returns its constant, each
      entry carries its constant, and no entry requires a login. */
  lemma AuthenticationTable()
    ensures Login == "/login" && SignIn == "/sign-in" && SignUp == "/sign-up"
    ensures Login != SignIn && SignIn != SignUp && Login != SignUp
    ensures PathAuthenticationLogin() == Login
    ensures PathAuthenticationSignIn() == SignIn
    ensures PathAuthenticationSignUp() == SignUp
    ensures |AppRoutesAuthentication| == 3
    ensures AppRoutesAuthentication[0].path == PathAuthenticationLogin()
    ensures AppRoutesAuthentication[1].path == PathAuthenticationSignIn()
    ensures AppRoutesAuthentication[2].path == PathAuthenticationSignUp()
    ensures forall r :: r in AppRoutesAuthentication ==> IsUnAuth(r) && r.requiresAuth == Some(false)
  {
  }
}
