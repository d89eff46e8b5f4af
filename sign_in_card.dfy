/** src/modules/authentication/components/SignInCard.tsx: the sign-in
    form's field checks, and what a login response leads to. */
module SignInCard {
  import opened Wrappers
  import opened Text
  import opened AppRoutes

  /** The two spellings of the header a login response may carry:
      `headers['authorization']` and `headers['Authorization']`. */
  datatype Headers = Headers(lower: Option<string>, upper: Option<string>)

  /** What the sign-in card does outside itself, in order. */
  datatype SignInEffect =
    | Login(username: string, password: string)
    | StoreToken(key: string, token: string)
    | RefreshUser
    | Navigate(path: string)
    | Alert(message: string)

  const UsernameMessage: string := "Please enter a valid username."
  const PasswordMessage: string := "Password must be at least 5 characters long."
  const TokenMissing: string := "Login failed: token missing."

  /** `headers['authorization'] || headers['Authorization']`. */
  function AuthHeader(h: Headers): (r: Option<string>)
    ensures Truthy(h.lower) ==> r == h.lower
    ensures !Truthy(h.lower) ==> r == h.upper
  {
    if Truthy(h.lower) then h.lower else h.upper
  }

  /** `authHeader.startsWith('Bearer ') ? authHeader.split(' ')[1] : none`:
      the token is the text after "Bearer " up to the next space. */
  function BearerToken(header: Option<string>): (t: Option<string>)
    ensures t.Some? <==> header.Some? && StartsWith(header.value, "Bearer ")
    ensures t.Some? ==> ' ' !in t.value && StartsWith(header.value, "Bearer " + t.value)
  {
    if header.Some? && StartsWith(header.value, "Bearer ") then
      var h := header.value;
      var rest := h[7..];
      SplitAfterWord("Bearer", ' ', rest);
      assert h == "Bearer" + [' '] + rest;
      SplitFirstIsPrefix(rest, ' ');
      assert h[..7 + |Split(rest, ' ')[0]|] == "Bearer " + Split(rest, ' ')[0];
      Some(Split(h, ' ')[1])
    else
      None
  }

  /** A token without spaces comes back out of its header, whatever
      follows it after a space. */
  lemma BearerTokenRoundTrip(token: string, rest: string)
    requires ' ' !in token
    ensures BearerToken(Some("Bearer " + token)) == Some(token)
    ensures BearerToken(Some("Bearer " + token + " " + rest)) == Some(token)
  {
    SplitAfterWord("Bearer", ' ', token);
    assert "Bearer " + token == "Bearer" + [' '] + token;
    SplitWithoutSeparator(token, ' ');
    SplitAfterWord("Bearer", ' ', token + " " + rest);
    assert "Bearer " + token + " " + rest == "Bearer" + [' '] + (token + " " + rest);
    SplitAfterWord(token, ' ', rest);
    assert token + " " + rest == token + [' '] + rest;
  }

  /** The username check: only an empty username is refused. */
  function UsernameError(username: string): (e: Option<string>)
    ensures e.Some? <==> username == ""
    ensures e.Some? ==> e.value == UsernameMessage
  {
    if |username| < 1 then Some(UsernameMessage) else None
  }

  /** The password check: fewer than five characters are refused. */
  function PasswordError(password: string): (e: Option<string>)
    ensures e.Some? <==> |password| < 5
    ensures e.Some? ==> e.value == PasswordMessage
  {
    if |password| < 5 then Some(PasswordMessage) else None
  }

  class Card {
    var usernameError: bool
    var usernameErrorMessage: string
    var passwordError: bool
    var passwordErrorMessage: string

    constructor()
      ensures !usernameError && usernameErrorMessage == "" && !passwordError && passwordErrorMessage == ""
    {
      usernameError := false;
      usernameErrorMessage := "";
      passwordError := false;
      passwordErrorMessage := "";
    }

    /** `validateInputs`: each field's flag and message are set from its
        own check, a passing field's message is cleared, and the result says
        that both passed. */
    method ValidateInputs(username: string, password: string) returns (isValid: bool)
      modifies this
      ensures usernameError <==> UsernameError(username).Some?
      ensures usernameErrorMessage == Nullish(UsernameError(username), "")
      ensures passwordError <==> PasswordError(password).Some?
      ensures passwordErrorMessage == Nullish(PasswordError(password), "")
      ensures isValid <==> username != "" && |password| >= 5
    {
      isValid := true;
      if |username| < 1 {
        usernameError := true;
        usernameErrorMessage := UsernameMessage;
        isValid := false;
      } else {
        usernameError := false;
        usernameErrorMessage := "";
      }
      if |password| < 5 {
        passwordError := true;
        passwordErrorMessage := PasswordMessage;
        isValid := false;
      } else {
        passwordError := false;
        passwordErrorMessage := "";
      }
    }

    /** `handleSubmit`, with `response` the settled login call. While a
        field is flagged nothing is sent. A response with a Bearer header
        stores its token under "authToken", refreshes the user and goes
        home, in that order; one without alerts and stays; a failed call
        only logs. */
    method HandleSubmit(username: string, password: string, response: Outcome<Headers>)
      returns (effects: seq<SignInEffect>)
      ensures usernameError || passwordError ==> effects == []
      ensures !(usernameError || passwordError) && response.Err? ==> effects == [Login(username, password)]
      ensures !(usernameError || passwordError) && response.Ok? ==>
                var token := BearerToken(AuthHeader(response.value));
                (token.Some? ==> effects == [Login(username, password), StoreToken("authToken", token.value), RefreshUser, Navigate(Home)]) &&
                (token.None? ==> effects == [Login(username, password), Alert(TokenMissing)])
    {
      if usernameError || passwordError {
        return [];
      }
      effects := [Login(username, password)];
      if response.Ok? {
        var token := BearerToken(AuthHeader(response.value));
        if token.Some? {
          effects := effects + [StoreToken("authToken", token.value), RefreshUser, Navigate(Home)];
        } else {
          effects := effects + [Alert(TokenMissing)];
        }
      }
    }
  }
}
