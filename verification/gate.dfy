/**
 * The admin access gate (`middleware.js`): a decision from "is there a valid
 * admin session?" and the request path to pass-through or a redirect, and the
 * matcher that decides which requests reach that decision at all.
 */
module Gate {
  import opened Text

  const LoginPath: string := "/log"
  const AdminRoot: string := "/admin"

  datatype Decision = Pass | Redirect(target: string)

  /** The `return` statement of the gate a request reaches, in source order. */
  datatype Branch =
    | AnonymousElsewhere        // no session, path is not the login page
    | AnonymousAtLogin          // no session, path is the login page
    | SignedInOutsideZone       // session, path does not start with "/admin"
    | SignedInAtLogin           // session, path is the login page
    | SignedInInZone            // session, path starts with "/admin"

  /** The branch the gate's tests select, evaluated in the order written. The
      fourth test (login page while signed in) can never succeed: the branch
      before it already redirected every path outside "/admin". */
  function Route(hasSession: bool, path: string): (b: Branch)
    ensures b != SignedInAtLogin
    ensures hasSession <==> b.SignedInOutsideZone? || b.SignedInInZone?
  {
    if !hasSession then
      if path != LoginPath then AnonymousElsewhere else AnonymousAtLogin
    else if !StartsWith(path, AdminRoot) then SignedInOutsideZone
    else if path == LoginPath then SignedInAtLogin
    else SignedInInZone
  }

  function Respond(b: Branch): Decision {
    match b
    case AnonymousElsewhere => Redirect(LoginPath)
    case AnonymousAtLogin => Pass
    case SignedInOutsideZone => Redirect(AdminRoot)
    case SignedInAtLogin => Redirect(AdminRoot)
    case SignedInInZone => Pass
  }

  /** The gate's decision for a request that reached it. */
  function Proxy(hasSession: bool, path: string): (d: Decision)
    ensures d == Pass || d == Redirect(LoginPath) || d == Redirect(AdminRoot)
    ensures !hasSession ==> (d == Pass <==> path == LoginPath)
    ensures !hasSession && path != LoginPath ==> d == Redirect(LoginPath)
    ensures hasSession ==> (d == Pass <==> StartsWith(path, AdminRoot))
    ensures hasSession && !StartsWith(path, AdminRoot) ==> d == Redirect(AdminRoot)
  {
    Respond(Route(hasSession, path))
  }

  /** The matcher patterns "/", "/log" and "/admin/:path*" (zero or more
      segments below "/admin"). */
  predicate Intercepted(path: string) {
    path == "/" || path == LoginPath || path == AdminRoot || StartsWith(path, AdminRoot + "/")
  }

  /** The whole middleware: requests the matcher does not select pass untouched. */
  function Middleware(hasSession: bool, path: string): (d: Decision)
    ensures !Intercepted(path) ==> d == Pass
    ensures Intercepted(path) ==> d == Proxy(hasSession, path)
    ensures d.Redirect? ==> Intercepted(path) && Intercepted(d.target)
  {
    if Intercepted(path) then Proxy(hasSession, path) else Pass
  }

  /** No redirect loops: a redirect never points back at the requested path, and
      the redirected request, with the same session state, passes. */
  lemma NoRedirectLoop(hasSession: bool, path: string)
    ensures Proxy(hasSession, path).Redirect? ==>
      var t := Proxy(hasSession, path).target;
      t != path && Proxy(hasSession, t) == Pass && Middleware(hasSession, t) == Pass
  {
    assert StartsWith(AdminRoot, AdminRoot);
  }

  /** On the paths the matcher selects, the gate's raw prefix test agrees with
      the segment-aware zone "/admin" and "/admin/...". */
  lemma SignedInZoneOnInterceptedPaths(path: string)
    requires Intercepted(path)
    ensures Proxy(true, path) == Pass <==> path == AdminRoot || StartsWith(path, AdminRoot + "/")
  {
    if StartsWith(path, AdminRoot + "/") {
      assert path[..|AdminRoot|] == (AdminRoot + "/")[..|AdminRoot|];
    }
  }

  /** The raw prefix test admits paths that merely begin with the letters
      "/admin"; such paths are not selected by the matcher, so they never reach
      the gate through it. */
  lemma RawPrefixAdmitsLookalikes()
    ensures Proxy(true, "/administrator") == Pass
    ensures !Intercepted("/administrator")
    ensures Middleware(false, "/administrator") == Pass
  {
    var p := "/administrator";
    assert p[..|AdminRoot|] == AdminRoot;
    assert p[|AdminRoot|] != '/';
    assert !StartsWith(p, AdminRoot + "/") by {
      assert (AdminRoot + "/")[|AdminRoot|] == '/';
    }
  }

  /** The four typical requests: an anonymous visit to the zone goes to the
      login page, which anonymous visitors may open; a signed-in visit to the
      login page goes to the zone root, and a zone page opens. */
  lemma TypicalRequests()
    ensures Middleware(false, "/admin") == Redirect(LoginPath)
    ensures Middleware(false, "/log") == Pass
    ensures Middleware(true, "/log") == Redirect(AdminRoot)
    ensures Middleware(true, "/admin/quiz") == Pass
  {
    assert StartsWith("/admin/quiz", "/admin/");
  }
}
