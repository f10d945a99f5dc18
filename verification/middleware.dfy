/**
 * The route guard run before each page request: signed-in visitors are
 * sent away from the sign-in and sign-up pages, anonymous visitors are
 * sent away from the shop's private pages, and everything else proceeds.
 */
module Middleware {

  import opened Wrappers

  datatype Decision = Next | Redirect(location: string)

  const Home := "/"
  const Unauthorized := "/unauthorized"

  /** Only the sign-in and sign-up pages are public. */
  predicate IsPublicPath(path: string) {
    path == "/login" || path == "/register"
  }

  predicate StartsWith(s: string, prefix: string) {
    |prefix| <= |s| && s[..|prefix|] == prefix
  }

  /** Raw string prefixes, so `/cartoon` is guarded just like `/cart/1`. */
  predicate IsGuardedPath(path: string) {
    || StartsWith(path, "/products")
    || StartsWith(path, "/cart")
    || StartsWith(path, "/checkout")
    || StartsWith(path, "/orders")
    || StartsWith(path, "/profile")
  }

  /** The `token` cookie's value, with a missing cookie read as the empty string. */
  function TokenOf(cookie: Option<string>): (token: string)
    ensures token == "" <==> cookie.None? || cookie.value == ""
    ensures cookie.Some? ==> token == cookie.value
  {
    match cookie
    case None => ""
    case Some(v) => v
  }

  /**
   * The decision for a request to `path` carrying the given `token`
   * cookie: signed-in visitors on a public page go home, anonymous
   * visitors on a guarded page go to the unauthorized page, and the rest
   * proceed.
   */
  function Guard(path: string, cookie: Option<string>): (d: Decision)
    ensures d == Redirect(Home) <==> IsPublicPath(path) && TokenOf(cookie) != ""
    ensures d == Redirect(Unauthorized) <==>
      !IsPublicPath(path) && TokenOf(cookie) == "" && IsGuardedPath(path)
    ensures d.Redirect? ==> d.location == Home || d.location == Unauthorized
  {
    var token := TokenOf(cookie);
    if IsPublicPath(path) && token != "" then Redirect(Home)
    else if !IsPublicPath(path) && token == "" && IsGuardedPath(path) then Redirect(Unauthorized)
    else Next
  }

  /** A signed-in visitor is never sent to the unauthorized page, and reaches every non-public page. */
  lemma SignedInReachesPrivatePages(path: string, cookie: Option<string>)
    requires TokenOf(cookie) != ""
    ensures Guard(path, cookie) != Redirect(Unauthorized)
    ensures !IsPublicPath(path) ==> Guard(path, cookie) == Next
  {
  }

  /** An anonymous visitor reaches the public pages and every page that is not guarded. */
  lemma AnonymousReachesOpenPages(path: string, cookie: Option<string>)
    requires TokenOf(cookie) == ""
    ensures Guard(path, cookie) != Redirect(Home)
    ensures IsPublicPath(path) || !IsGuardedPath(path) ==> Guard(path, cookie) == Next
  {
  }

  /** A redirect target is never redirected again with the same cookie, so the guard cannot loop. */
  lemma RedirectTargetProceeds(path: string, cookie: Option<string>)
    requires Guard(path, cookie).Redirect?
    ensures Guard(Guard(path, cookie).location, cookie) == Next
  {
    HomeIsOpen();
    UnauthorizedIsOpen();
  }

  lemma HomeIsOpen()
    ensures !IsPublicPath(Home) && !IsGuardedPath(Home)
  {
  }

  lemma UnauthorizedIsOpen()
    ensures !IsPublicPath(Unauthorized) && !IsGuardedPath(Unauthorized)
  {
    DiffersAt(Unauthorized, "/products", 1);
    DiffersAt(Unauthorized, "/cart", 1);
    DiffersAt(Unauthorized, "/checkout", 1);
    DiffersAt(Unauthorized, "/orders", 1);
    DiffersAt(Unauthorized, "/profile", 1);
  }

  /** A string that differs from `prefix` at one of the prefix's positions does not start with it. */
  lemma DiffersAt(s: string, prefix: string, k: nat)
    requires k < |prefix| && (k >= |s| || s[k] != prefix[k])
    ensures !StartsWith(s, prefix)
  {
  }

  /** Guarding is by raw prefix: an anonymous request for `/cartoon` is redirected, and an empty cookie counts as none. */
  lemma RawPrefixExample()
    ensures Guard("/cartoon", None) == Redirect(Unauthorized)
    ensures Guard("/cartoon", Some("")) == Redirect(Unauthorized)
    ensures Guard("/login", Some("")) == Next
    ensures Guard("/login", Some("t0k3n")) == Redirect(Home)
    ensures Guard("/cart", Some("t0k3n")) == Next
  {
    assert "/cartoon"[..5] == "/cart";
  }
}
