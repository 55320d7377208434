/** The route guard (middleware.js): send visitors without a session token to the login page,
    send signed-in visitors away from the login and registration pages. */
module Middleware {
  import opened Common

  /** The guard's answer to one request. */
  datatype Response =
    | RedirectLogin(redirect: string)  // to /login, with the original path as `redirect`
    | RedirectHome                     // to /
    | Next                             // pass through

  /** `!!token`: a missing cookie and an empty one both mean no session. */
  predicate HasToken(token: Option<string>) {
    token.Some? && token.value != ""
  }

  /** A prefix test, so "/loginx" and "/register/done" count as auth pages too. */
  predicate IsAuthPage(path: string) {
    "/login" <= path || "/register" <= path
  }

  function Decide(token: Option<string>, path: string): (r: Response)
    ensures r.RedirectLogin? <==> !HasToken(token) && !IsAuthPage(path)
    ensures r.RedirectLogin? ==> r.redirect == path
    ensures r.RedirectHome? <==> HasToken(token) && IsAuthPage(path)
    ensures r.Next? <==> HasToken(token) != IsAuthPage(path)
  {
    var isAuthPage := IsAuthPage(path);
    if !HasToken(token) && !isAuthPage then RedirectLogin(path)
    else if HasToken(token) && isAuthPage then RedirectHome
    else Next
  }

  /** The decision sees only whether there is a token, never its value. */
  lemma DependsOnlyOnPresence(a: Option<string>, b: Option<string>, path: string)
    requires HasToken(a) == HasToken(b)
    ensures Decide(a, path) == Decide(b, path)
  {
  }

  /** Following a redirect never redirects again: /login lets a visitor without a token
      through, and / lets a visitor with one through. */
  lemma NoRedirectLoop(token: Option<string>, path: string)
    ensures Decide(token, path).RedirectLogin? ==> Decide(token, "/login").Next?
    ensures Decide(token, path).RedirectHome? ==> Decide(token, "/").Next?
  {
    assert "/login" <= "/login";
    assert !("/login" <= "/") && !("/register" <= "/");
  }

  /** The prefix test admits paths that only begin like an auth page. */
  lemma PrefixMatch()
    ensures IsAuthPage("/loginx") && IsAuthPage("/register/done") && !IsAuthPage("/account")
  {
    assert "/login" <= "/loginx";
    assert "/register" <= "/register/done";
    assert "/account"[1] != "/login"[1] && "/account"[1] != "/register"[1];
  }
}
