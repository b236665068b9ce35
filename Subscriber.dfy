/**
  The request-event subscriber itself: a request event whose response the
  subscriber may set, and `RedirectAnonymous`, the step-by-step handler,
  proved to set exactly the response `Render(Decide(...))` describes.
 */
module Subscriber {
  import opened Wrappers
  import opened PhpString
  import opened RedirectDecision

  /** The kernel's request event: the request path and the response slot. */
  class RequestEvent {
    const pathInfo: string
    var response: Option<Response>
    /** How many times a response has been set on this event. */
    ghost var responsesSet: nat

    constructor (pathInfo: string)
      ensures this.pathInfo == pathInfo
      ensures response == None && responsesSet == 0
    {
      this.pathInfo := pathInfo;
      response := None;
      responsesSet := 0;
    }

    /** `setResponse`: the given response replaces any earlier one. */
    method SetResponse(r: Response)
      modifies this
      ensures response == Some(r)
      ensures responsesSet == old(responsesSet) + 1
    {
      response := Some(r);
      responsesSet := responsesSet + 1;
    }
  }

  /** The subscriber, holding the injected host services. */
  class CustomAnonymousRedirectSubscriber {
    const host: Host

    constructor (host: Host)
      ensures this.host == host
    {
      this.host := host;
    }

    /** `redirectAnonymous`: sets at most one response on the event, exactly
        the one the decision describes, and leaves the event alone otherwise. */
    method RedirectAnonymous(event: RequestEvent, config: Settings, ctx: Context)
      modifies event
      ensures var outcome := Decide(host, config, ctx, event.pathInfo);
              event.response == (if outcome == NoAction then old(event.response) else Render(host, outcome))
      ensures var outcome := Decide(host, config, ctx, event.pathInfo);
              event.responsesSet == old(event.responsesSet) + (if outcome == NoAction then 0 else 1)
    {
      if !config.enableRedirect || ctx.authenticated || ctx.maintenanceMode {
        return;
      }

      var redirectUrl := config.redirectUrl;
      var overridesText := host.alterPaths(config.redirectUrlOverrides);
      var overrides := if IsTruthy(overridesText) then Explode(overridesText) else [];

      var currentPath := event.pathInfo;
      var prefix := ctx.languageId;
      if Substr(currentPath, 1, |prefix|) == prefix {
        currentPath := SubstrFrom(currentPath, |prefix| + 1);
      }
      assert currentPath == StripLanguagePrefix(event.pathInfo, ctx.languageId);
      assert overrides == OverrideList(overridesText);

      if currentPath in overrides || host.matchPath(currentPath, overridesText) {
        return;
      }

      if host.isExternal(redirectUrl) {
        event.SetResponse(TrustedRedirect(redirectUrl));
        return;
      }

      if IsFrontPage(redirectUrl) && currentPath != host.frontPath {
        event.SetResponse(Redirect(host.frontPath));
      }

      if !IsFrontPage(redirectUrl) && StrPos(currentPath, redirectUrl).None? {
        if redirectUrl == host.loginPath && currentPath != "/" {
          redirectUrl := host.withDestination(redirectUrl, currentPath);
        }
        event.SetResponse(Redirect(host.internalUrl(redirectUrl)));
      }
    }
  }

  // ----- The scenarios of the module's kernel test, on a concrete host -----

  /** A host like the kernel test's: the front page at "/", the login page at
      "/user/login", http and https URLs external, a path matcher that never matches,
      no alter hook, and URL builders that add no base path. */
  function TestHost(): Host
  {
    Host("/", "/user/login",
         u => |u| >= 5 && u[..5] in {"http:", "https"},
         (p, t) => false,
         t => t,
         (p, d) => p + "?destination=" + d,
         p => p)
  }

  const TestRedirectUrl: string := "/test-redirect-url"

  /** An anonymous visitor of "/example" is sent to the configured path. */
  lemma AnonymousVisitorRedirected()
    ensures Render(TestHost(), Decide(TestHost(), Settings(true, TestRedirectUrl, ""),
                   Context(false, false, "en"), "/example"))
            == Some(Redirect(TestRedirectUrl))
  {
    NoPrefixUnchanged();
    assert TestRedirectUrl[0] == '/';
  }

  /** In maintenance mode nothing happens. */
  lemma MaintenanceModeNoResponse()
    ensures Decide(TestHost(), Settings(true, TestRedirectUrl, ""),
                   Context(false, true, "en"), "/example") == NoAction
  {
  }

  /** A path listed in the overrides is left alone. */
  lemma OverriddenPathNoResponse()
    ensures Decide(TestHost(), Settings(true, TestRedirectUrl, "/example2"),
                   Context(false, false, "en"), "/example2") == NoAction
  {
    assert "/example2"[1..3] == "ex";
    assert FreeOfCRLF("/example2") by {
      forall i ensures !CRLFAt("/example2", i) {
      }
    }
    ExplodeOfFree("/example2");
  }

  /** An external destination yields a trusted redirect to that URL. */
  lemma ExternalRedirectTrusted()
    ensures Render(TestHost(), Decide(TestHost(), Settings(true, "https://example.com/external-redirect", ""),
                   Context(false, false, "en"), "/example"))
            == Some(TrustedRedirect("https://example.com/external-redirect"))
  {
    NoPrefixUnchanged();
    var url := "https://example.com/external-redirect";
    assert url[..5] == [url[0], url[1], url[2], url[3], url[4]] == "https";
  }

  /** An authenticated account is never redirected. */
  lemma AuthenticatedNoResponse()
    ensures Decide(TestHost(), Settings(true, TestRedirectUrl, ""),
                   Context(true, false, "en"), "/example") == NoAction
  {
  }

  /** A visitor of "/dashboard" sent to the login page is brought back there
      after logging in. */
  lemma LoginCarriesDestination()
    ensures Render(TestHost(), Decide(TestHost(), Settings(true, "/user/login", ""),
                   Context(false, false, "en"), "/dashboard"))
            == Some(Redirect("/user/login?destination=/dashboard"))
  {
    var host, path, login := TestHost(), "/dashboard", "/user/login";
    assert path[1..3] == [path[1], path[2]] == "da";
    assert StripLanguagePrefix(path, "en") == path;
    assert !Overridden(host, Settings(true, login, ""), path);
    assert login[..5] == [login[0], login[1], login[2], login[3], login[4]] == "/user";
    assert !host.isExternal(login);
    assert StrPos(path, login) == None;
    assert Decide(host, Settings(true, login, ""), Context(false, false, "en"), path)
        == Internal(login, Some(path));
    assert login + "?destination=" + path == "/user/login?destination=/dashboard";
  }

  /** A path that already contains the destination is not redirected. */
  lemma SubPathNotRedirected()
    ensures Decide(TestHost(), Settings(true, "/special", ""),
                   Context(false, false, "en"), "/special/sub") == NoAction
  {
    assert "/special/sub"[1..3] == "sp";
    assert "/special"[0] == '/';
    assert OccursAt("/special/sub", "/special", 0);
  }

  /** Handling an event end to end: a fresh event for "/example" receives the
      redirect, set once. */
  method HandleTestRequest() returns (response: Option<Response>)
    ensures response == Some(Redirect(TestRedirectUrl))
  {
    var subscriber := new CustomAnonymousRedirectSubscriber(TestHost());
    var event := new RequestEvent("/example");
    subscriber.RedirectAnonymous(event, Settings(true, TestRedirectUrl, ""), Context(false, false, "en"));
    AnonymousVisitorRedirected();
    assert event.responsesSet == 1;
    response := event.response;
  }
}
