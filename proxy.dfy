/**
 * The request gate in proxy.ts: which paths pass untouched, which need a
 * session token, the one role check, and the identity headers handed on.
 * Token verification is a parameter (`verify`), since the JWT library is not
 * part of this model.
 */
module Proxy {
  import opened Wrappers
  import Text

  /** What a verified token carries. */
  datatype Claims = Claims(userId: string, role: string)

  datatype Decision =
    | Next                                        // pass on unchanged
    | Redirect(to: string)
    | NextWithHeaders(headers: seq<(string, string)>) // pass on with identity headers

  const PublicPaths: seq<string> := ["/login", "/api/login", "/api/register"]

  /** Paths that need no authentication: public prefixes and the root itself. */
  predicate IsPublic(pathname: string)
  {
    (exists i :: 0 <= i < |PublicPaths| && Text.StartsWith(pathname, PublicPaths[i])) || pathname == "/"
  }

  /** Next.js internals and static files: anything under /_next or /static, or with a dot. */
  predicate IsStatic(pathname: string)
  {
    Text.StartsWith(pathname, "/_next") || Text.StartsWith(pathname, "/static") || '.' in pathname
  }

  /** The request gets through without looking at the cookie. */
  predicate Bypasses(pathname: string) { IsPublic(pathname) || IsStatic(pathname) }

  /** The cookie holds a token and the verifier accepts it. */
  predicate Authenticated(token: Option<string>, verify: string -> Option<Claims>)
  {
    token.Some? && token.value != "" && verify(token.value).Some?
  }

  /** `proxy(request)`: the decision for a path and the `session_token` cookie, if any. */
  function Decide(pathname: string, token: Option<string>, verify: string -> Option<Claims>): (d: Decision)
    ensures d == Next <==> Bypasses(pathname)
    ensures d.Redirect? ==> d.to == "/"
    ensures !Bypasses(pathname) && !Authenticated(token, verify) ==> d == Redirect("/")
    ensures d.NextWithHeaders? <==>
      && !Bypasses(pathname)
      && Authenticated(token, verify)
      && (pathname == "/admin" ==> verify(token.value).value.role == "SUPER_ADMIN")
    ensures d.NextWithHeaders? ==>
      d.headers == [("x-user-id", verify(token.value).value.userId),
                    ("x-user-role", verify(token.value).value.role)]
  {
    if Text.StartsWith(pathname, PublicPaths[0]) || Text.StartsWith(pathname, PublicPaths[1])
       || Text.StartsWith(pathname, PublicPaths[2]) || pathname == "/" then
      Next
    else if Text.StartsWith(pathname, "/_next") || Text.StartsWith(pathname, "/static") || '.' in pathname then
      Next
    else if token.None? || token.value == "" then
      Redirect("/")
    else
      match verify(token.value)
      case None => Redirect("/")
      case Some(claims) =>
        if pathname == "/admin" && claims.role != "SUPER_ADMIN" then Redirect("/")
        else NextWithHeaders([("x-user-id", claims.userId), ("x-user-role", claims.role)])
  }

  /** Only the exact path "/admin" is role-checked: its sub-pages pass any verified role. */
  lemma AdminSubpathsNotRoleChecked(token: Option<string>, verify: string -> Option<Claims>)
    requires Authenticated(token, verify)
    requires verify(token.value).value.role != "SUPER_ADMIN"
    ensures Decide("/admin", token, verify) == Redirect("/")
    ensures Decide("/admin/users", token, verify).NextWithHeaders?
  {
    NotStartsWith("/admin", "/login", 1);
    NotStartsWith("/admin", "/api/login", 2);
    NotStartsWith("/admin", "/_next", 1);
    NotStartsWith("/admin", "/static", 1);
    NotStartsWith("/admin/users", "/login", 1);
    NotStartsWith("/admin/users", "/api/login", 2);
    NotStartsWith("/admin/users", "/api/register", 2);
    NotStartsWith("/admin/users", "/_next", 1);
    NotStartsWith("/admin/users", "/static", 1);
  }

  lemma NotStartsWith(s: string, prefix: string, k: nat)
    requires k < |s| && k < |prefix| && s[k] != prefix[k]
    ensures !Text.StartsWith(s, prefix)
  {
    if |prefix| <= |s| {
      assert s[..|prefix|][k] != prefix[k];
    }
  }

  /** A public prefix passes whatever the cookie, and so does anything below it. */
  lemma PublicPrefixPasses(suffix: string, token: Option<string>, verify: string -> Option<Claims>)
    ensures Decide("/login" + suffix, token, verify) == Next
    ensures Decide("/api/register" + suffix, token, verify) == Next
  {
    assert ("/login" + suffix)[..|"/login"|] == "/login";
    assert Text.StartsWith("/login" + suffix, PublicPaths[0]);
    assert ("/api/register" + suffix)[..|"/api/register"|] == "/api/register";
    assert Text.StartsWith("/api/register" + suffix, PublicPaths[2]);
  }
}
