/** The login page (pages/LoginPage.tsx): two text fields, a submit that
    asks the auth gate and, on success only, replaces the current history
    entry with the remembered path. The auth gate's `login` and `error` are
    not part of this model: each call is recorded and its answer is a
    parameter. */
module Login {
  import opened Types

  /** `location.state?.from?.pathname || '/'`: the remembered path when
      there is a non-empty one, the catalog root otherwise. */
  function RedirectTarget(fromPath: Option<string>): (target: string)
    ensures target != []
    ensures fromPath.Some? && fromPath.value != [] ==> target == fromPath.value
    ensures fromPath.None? || fromPath.value == [] ==> target == "/"
  {
    if fromPath.Some? && fromPath.value != [] then fromPath.value else "/"
  }

  /** `{error && <p>{error}</p>}`: the error line, shown only when the auth
      gate reports a non-empty error. */
  function ErrorLine(error: string): (line: Option<string>)
    ensures line.Some? <==> error != []
    ensures line.Some? ==> line.value == error
  {
    if error != [] then Some(error) else None
  }

  /** One call of `login(username, password)`. */
  datatype Credentials = Credentials(username: string, password: string)

  /** `LoginPage`: the two fields, the redirect target computed from the
      router location, and the calls the page has made. */
  class LoginPage {
    const from: string
    var username: string
    var password: string
    var loginCalls: seq<Credentials>
    var navigations: seq<Navigation>

    /** Mounting the page with the location's remembered path, if any. */
    constructor (fromPath: Option<string>)
      ensures from == RedirectTarget(fromPath)
      ensures username == [] && password == []
      ensures loginCalls == [] && navigations == []
    {
      from := RedirectTarget(fromPath);
      username := [];
      password := [];
      loginCalls := [];
      navigations := [];
    }

    /** The username field's `onChange`. */
    method SetUsername(v: string)
      modifies this
      ensures username == v && password == old(password)
      ensures loginCalls == old(loginCalls) && navigations == old(navigations)
    {
      username := v;
    }

    /** The password field's `onChange`. */
    method SetPassword(v: string)
      modifies this
      ensures password == v && username == old(username)
      ensures loginCalls == old(loginCalls) && navigations == old(navigations)
    {
      password := v;
    }

    /** `handleSubmit`, which the browser runs only when both fields are
        filled in; `accepted` is what `login` answered for them. The page
        navigates, replacing the history entry, exactly when the login was
        accepted, and otherwise stays. */
    method HandleSubmit(accepted: bool)
      requires username != [] && password != []
      modifies this
      ensures loginCalls == old(loginCalls) + [Credentials(username, password)]
      ensures accepted ==> navigations == old(navigations) + [Replace(from)]
      ensures !accepted ==> navigations == old(navigations)
      ensures username == old(username) && password == old(password)
    {
      loginCalls := loginCalls + [Credentials(username, password)];
      if accepted {
        navigations := navigations + [Replace(from)];
      }
    }

    /** The link back to the catalog root, which needs no login. */
    method GoHome()
      modifies this
      ensures navigations == old(navigations) + [Push("/")]
      ensures loginCalls == old(loginCalls)
      ensures username == old(username) && password == old(password)
    {
      navigations := navigations + [Push("/")];
    }
  }

  /** Signing in from a page that remembered a protected path: the page
      sends the typed credentials to the auth gate and, once accepted,
      returns to that path without adding a history entry. */
  method SignInScenario(fromPath: string, user: string, pass: string) returns (page: LoginPage)
    requires fromPath != [] && user != [] && pass != []
    ensures page.loginCalls == [Credentials(user, pass)]
    ensures page.navigations == [Replace(fromPath)]
  {
    page := new LoginPage(Some(fromPath));
    page.SetUsername(user);
    page.SetPassword(pass);
    page.HandleSubmit(true);
  }
}
