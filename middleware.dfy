/** The route guard run before every page and API request. */
module Middleware {
  import opened Strings

  const PublicPaths: seq<string> := ["/", "/login", "/book"]
  const PublicPrefixes: seq<string> := ["/api/auth", "/_next", "/favicon"]
  const ProtectedPrefixes: seq<string> := ["/admin", "/api/admin", "/api/appointments"]

  /** `isPublicPath`: one of the exact public paths, or under a public prefix. */
  predicate IsPublicPath(path: string) {
    path in PublicPaths || exists prefix :: prefix in PublicPrefixes && StartsWith(path, prefix)
  }

  predicate IsProtected(path: string) {
    exists prefix :: prefix in ProtectedPrefixes && StartsWith(path, prefix)
  }

  /** A provider session cookie, judged by its name alone. */
  predicate IsSessionCookieName(name: string) {
    name == "sb-access-token" || name == "supabase-auth-token"
    || (StartsWith(name, "sb-") && EndsWith(name, "-auth-token"))
  }

  /** `hasSupabaseSessionCookie`, over the names of the request's cookies. */
  predicate HasSessionCookie(cookieNames: seq<string>) {
    exists name :: name in cookieNames && IsSessionCookieName(name)
  }

  /** What `isPublicPath` decides beyond its three exact paths: every
      extension of a path under a public prefix is public too. */
  lemma PublicPrefixExtends(path: string, suffix: string)
    ensures IsPublicPath("/") && IsPublicPath("/login") && IsPublicPath("/book")
    ensures (exists prefix :: prefix in PublicPrefixes && StartsWith(path, prefix)) ==> IsPublicPath(path + suffix)
  {
    if exists prefix :: prefix in PublicPrefixes && StartsWith(path, prefix) {
      var prefix :| prefix in PublicPrefixes && StartsWith(path, prefix);
      assert (path + suffix)[..|prefix|] == path[..|prefix|];
    }
  }

  /** The prefix test needs no segment boundary, so "/api/authority" is
      public, while an exact public path does not cover what lies under it
      or extends it: "/login/" and "/booking" are not public. */
  lemma PublicPathEdges()
    ensures IsPublicPath("/api/authority") && IsPublicPath("/_next/static/app.js")
    ensures !IsPublicPath("/login/") && !IsPublicPath("/booking")
  {
    assert StartsWith("/api/authority", "/api/auth") by {
      assert "/api/authority"[..9] == "/api/auth";
    }
    assert StartsWith("/_next/static/app.js", "/_next") by {
      assert "/_next/static/app.js"[..6] == "/_next";
    }
    NotUnderPublicPrefix("/login/");
    NotUnderPublicPrefix("/booking");
  }

  /** A path whose second character is none of the prefixes' (`a`, `_`, `f`)
      is under no public prefix. */
  lemma NotUnderPublicPrefix(path: string)
    requires |path| >= 2 && path[1] !in {'a', '_', 'f'}
    ensures forall prefix :: prefix in PublicPrefixes ==> !StartsWith(path, prefix)
  {
    forall prefix | prefix in PublicPrefixes ensures !StartsWith(path, prefix) {
      assert |prefix| >= 2 && prefix[1] in {'a', '_', 'f'};
      if |prefix| <= |path| {
        assert path[..|prefix|][1] == path[1];
      }
    }
  }

  /** What `hasSupabaseSessionCookie` decides: `some` over the cookies, so
      no cookies means no session, one session name suffices, and further
      cookies on either side never remove it. */
  lemma SessionCookieMonotone(names: seq<string>, more: seq<string>)
    ensures !HasSessionCookie([])
    ensures HasSessionCookie(names) ==> HasSessionCookie(names + more) && HasSessionCookie(more + names)
  {
    if HasSessionCookie(names) {
      var name :| name in names && IsSessionCookieName(name);
      assert name in names + more && name in more + names;
    }
  }

  /** The pattern clause needs no provider reference between the dashes: the
      two dashes may be one, so even "sb-auth-token" counts. */
  lemma SessionCookieNamesAccepted()
    ensures IsSessionCookieName("sb-access-token") && IsSessionCookieName("supabase-auth-token")
    ensures IsSessionCookieName("sb-auth-token")
  {
    var n := "sb-auth-token";
    assert n[..3] == "sb-" && n[2..] == "-auth-token";
  }

  /** A name of the `sb-<ref>-auth-token` shape counts for every reference. */
  lemma ProviderAuthTokenAccepted(ref: string)
    ensures IsSessionCookieName("sb-" + ref + "-auth-token")
  {
    var n := "sb-" + ref + "-auth-token";
    assert n[..3] == "sb-";
    assert n[|n| - 11..] == "-auth-token";
  }

  /** Other provider cookies do not count: neither the refresh token nor a
      name outside the `sb-` family. */
  lemma SessionCookieNamesRefused()
    ensures !IsSessionCookieName("sb-refresh-token") && !IsSessionCookieName("supabase-session")
  {
    var r, t := "sb-refresh-token", "-auth-token";
    assert r[|r| - |t|..][0] != t[0];
    var u := "supabase-session";
    assert u[..3][1] != "sb-"[1];
  }

  datatype Decision = PassThrough | RedirectToLogin

  /** `middleware`: public paths pass, unprotected paths pass, a protected path
      passes only with a session cookie and is otherwise sent to "/login". */
  function Guard(path: string, cookieNames: seq<string>): (r: Decision)
    ensures path in PublicPaths ==> r == PassThrough
    ensures (exists prefix :: prefix in PublicPrefixes && StartsWith(path, prefix)) ==> r == PassThrough
    ensures !IsProtected(path) ==> r == PassThrough
    ensures r == RedirectToLogin <==> !IsPublicPath(path) && IsProtected(path) && !HasSessionCookie(cookieNames)
    ensures HasSessionCookie(cookieNames) ==> r == PassThrough
  {
    if IsPublicPath(path) then PassThrough
    else if !IsProtected(path) then PassThrough
    else if !HasSessionCookie(cookieNames) then RedirectToLogin
    else PassThrough
  }

  /** The public and protected path sets do not meet, so the precedence of the
      public check never overrides a protection. */
  lemma PublicAndProtectedDisjoint(path: string)
    ensures IsPublicPath(path) ==> !IsProtected(path)
  {
    if IsPublicPath(path) {
      forall q | q in ProtectedPrefixes ensures !StartsWith(path, q) {
        // a position below both lengths where `path` and `q` differ
        var k: nat;
        if path in PublicPaths {
          k := 1;
        } else {
          var p :| p in PublicPrefixes && StartsWith(path, p);
          assert path[..|p|] == p;
          k := if p == "/api/auth" then (if q == "/admin" then 2 else 6) else 1;
          assert path[k] == p[k];
        }
        if |q| <= |path| {
          assert path[..|q|][k] == path[k] != q[k];
        }
      }
    }
  }

  /** A protected path without a session cookie is redirected, whatever its
      other cookies hold; adding a session cookie lets it through. */
  lemma ProtectedNeedsSessionCookie(path: string, cookieNames: seq<string>, session: string)
    requires IsProtected(path) && !HasSessionCookie(cookieNames)
    requires IsSessionCookieName(session)
    ensures Guard(path, cookieNames) == RedirectToLogin
    ensures Guard(path, cookieNames + [session]) == PassThrough
  {
    PublicAndProtectedDisjoint(path);
    assert session in cookieNames + [session];
  }
}
