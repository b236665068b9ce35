/**
  The per-request decision of the custom anonymous redirect subscriber, as a
  pure function of the settings, the request context, the request path and the
  host framework's services. `Decide` says which of the subscriber's branches
  fires; `Render` turns that into the response the event receives.
 */
module RedirectDecision {
  import opened Wrappers
  import opened PhpString

  /** The route sentinel that names the site's front page. */
  const FrontSentinel: string := "<front>"

  /** The `custom_anonymous_redirect.settings` configuration object. */
  datatype Settings = Settings(
    enableRedirect: bool,         // enable_redirect
    redirectUrl: string,          // redirect_url: the destination
    redirectUrlOverrides: string  // redirect_url_overrides: CRLF-separated paths
  )

  /** What the host reports about the visitor and the site for this request. */
  datatype Context = Context(
    authenticated: bool,    // the current account is authenticated
    maintenanceMode: bool,  // the system.maintenance_mode state flag
    languageId: string      // the id of the current language, e.g. "en"
  )

  /** The host framework's services, whose code is not part of this model. */
  datatype Host = Host(
    frontPath: string,                           // the front page route as a URL string
    loginPath: string,                           // the user.login route as a URL string
    isExternal: string -> bool,                  // the URL helper's external-URL test
    matchPath: (string, string) -> bool,         // the path matcher, against the override text
    alterPaths: string -> string,                // the custom_anonymous_redirect_paths alter hook
    withDestination: (string, string) -> string, // user-input URL with a destination query
    internalUrl: string -> string                // an internal: URI as a URL string
  )

  /** Which branch of the subscriber fires. */
  datatype Outcome =
    | NoAction
    | External(url: string)
    | FrontPage
    | Internal(path: string, destination: Option<string>)

  /** The response set on the request event. */
  datatype Response =
    | TrustedRedirect(targetUrl: string)  // may leave the site
    | Redirect(targetUrl: string)

  /** `isFrontPage`: the destination is the front page sentinel. */
  function IsFrontPage(urlString: string): (r: bool)
    ensures r <==> urlString == FrontSentinel
  {
    if urlString == FrontSentinel then true else false
  }

  /** The path compared with the overrides and the destination: when the
      characters after the leading one spell the language id, they and the
      leading character are dropped (no following "/" is required). */
  function StripLanguagePrefix(path: string, languageId: string): (r: string)
    ensures 1 + |languageId| <= |path| && path[1..1 + |languageId|] == languageId ==>
              r == path[1 + |languageId|..]
    ensures !(1 + |languageId| <= |path| && path[1..1 + |languageId|] == languageId) ==>
              r == path
  {
    if Substr(path, 1, |languageId|) == languageId then SubstrFrom(path, |languageId| + 1)
    else path
  }

  /** The override list: empty for falsy text, otherwise the CRLF-separated lines. */
  function OverrideList(text: string): (r: seq<string>)
    ensures !IsTruthy(text) ==> r == []
    ensures IsTruthy(text) ==> Implode(r) == text
    ensures forall i :: 0 <= i < |r| ==> FreeOfCRLF(r[i])
  {
    if IsTruthy(text) then
      ImplodeExplode(text);
      ExplodePiecesFree(text);
      Explode(text)
    else []
  }

  /** The redirect is switched on and the visitor is an anonymous visitor of a
      site that is not in maintenance. */
  predicate GateOpen(settings: Settings, ctx: Context)
  {
    settings.enableRedirect && !ctx.authenticated && !ctx.maintenanceMode
  }

  /** The altered override text, after the alter hook has run. */
  function OverrideText(host: Host, settings: Settings): string
  {
    host.alterPaths(settings.redirectUrlOverrides)
  }

  /** The (stripped) path is exempt from the redirect. */
  predicate Overridden(host: Host, settings: Settings, path: string)
  {
    var text := OverrideText(host, settings);
    path in OverrideList(text) || host.matchPath(path, text)
  }

  /** The decision taken for a request to `pathInfo`. */
  function Decide(host: Host, settings: Settings, ctx: Context, pathInfo: string): Outcome
  {
    if !GateOpen(settings, ctx) then NoAction
    else
      var path := StripLanguagePrefix(pathInfo, ctx.languageId);
      var dest := settings.redirectUrl;
      if Overridden(host, settings, path) then NoAction
      else if host.isExternal(dest) then External(dest)
      else if IsFrontPage(dest) then (if path != host.frontPath then FrontPage else NoAction)
      else if StrPos(path, dest).Some? then NoAction
      else if dest == host.loginPath && path != "/" then Internal(dest, Some(path))
      else Internal(dest, None)
  }

  /** The response the framework builds for an outcome; None for no response. */
  function Render(host: Host, outcome: Outcome): Option<Response>
  {
    match outcome
    case NoAction => None
    case External(url) => Some(TrustedRedirect(url))
    case FrontPage => Some(Redirect(host.frontPath))
    case Internal(path, None) => Some(Redirect(host.internalUrl(path)))
    case Internal(path, Some(d)) => Some(Redirect(host.internalUrl(host.withDestination(path, d))))
  }

  // ----- Properties of the decision -----

  /** A response is only ever produced for an anonymous visitor of an enabled,
      live site whose stripped path is not exempt. */
  lemma ResponseOnlyWhenEligible(host: Host, settings: Settings, ctx: Context, pathInfo: string)
    ensures Decide(host, settings, ctx, pathInfo) != NoAction ==>
              GateOpen(settings, ctx) &&
              !Overridden(host, settings, StripLanguagePrefix(pathInfo, ctx.languageId))
  {
  }

  /** Disabled redirect, an authenticated account or maintenance mode: no
      response, whatever the path, destination or overrides. */
  lemma GateClosedNoAction(host: Host, settings: Settings, ctx: Context, pathInfo: string)
    requires !settings.enableRedirect || ctx.authenticated || ctx.maintenanceMode
    ensures Decide(host, settings, ctx, pathInfo) == NoAction
    ensures Render(host, Decide(host, settings, ctx, pathInfo)) == None
  {
  }

  /** A stripped path listed in the override text, or matched by the path
      matcher against it, gets no response. */
  lemma OverriddenNoAction(host: Host, settings: Settings, ctx: Context, pathInfo: string)
    requires StripLanguagePrefix(pathInfo, ctx.languageId) in OverrideList(OverrideText(host, settings))
          || host.matchPath(StripLanguagePrefix(pathInfo, ctx.languageId), OverrideText(host, settings))
    ensures Decide(host, settings, ctx, pathInfo) == NoAction
  {
  }

  /** An external destination is answered by a trusted redirect to exactly
      that destination, before any internal branch is looked at. */
  lemma ExternalDestination(host: Host, settings: Settings, ctx: Context, pathInfo: string)
    requires GateOpen(settings, ctx)
    requires !Overridden(host, settings, StripLanguagePrefix(pathInfo, ctx.languageId))
    requires host.isExternal(settings.redirectUrl)
    ensures Decide(host, settings, ctx, pathInfo) == External(settings.redirectUrl)
    ensures Render(host, Decide(host, settings, ctx, pathInfo)) == Some(TrustedRedirect(settings.redirectUrl))
  {
  }

  /** Only an external destination yields a trusted redirect, and it carries
      the configured destination unchanged. */
  lemma TrustedOnlyForExternal(host: Host, settings: Settings, ctx: Context, pathInfo: string)
    ensures Decide(host, settings, ctx, pathInfo).External? <==>
              GateOpen(settings, ctx) &&
              !Overridden(host, settings, StripLanguagePrefix(pathInfo, ctx.languageId)) &&
              host.isExternal(settings.redirectUrl)
    ensures Decide(host, settings, ctx, pathInfo).External? ==>
              Decide(host, settings, ctx, pathInfo).url == settings.redirectUrl
  {
  }

  /** With the `<front>` destination the visitor goes to the front page exactly
      when the stripped path is not already the front page; the generic
      internal branch is never taken. */
  lemma FrontPageDestination(host: Host, settings: Settings, ctx: Context, pathInfo: string)
    requires GateOpen(settings, ctx)
    requires !Overridden(host, settings, StripLanguagePrefix(pathInfo, ctx.languageId))
    requires !host.isExternal(settings.redirectUrl)
    requires settings.redirectUrl == FrontSentinel
    ensures Decide(host, settings, ctx, pathInfo).FrontPage? <==>
              StripLanguagePrefix(pathInfo, ctx.languageId) != host.frontPath
    ensures !Decide(host, settings, ctx, pathInfo).FrontPage? ==>
              Decide(host, settings, ctx, pathInfo) == NoAction
  {
  }

  /** The front page response needs the sentinel destination, and the internal
      response needs any other destination. */
  lemma BranchesFollowDestination(host: Host, settings: Settings, ctx: Context, pathInfo: string)
    ensures Decide(host, settings, ctx, pathInfo).FrontPage? ==> settings.redirectUrl == FrontSentinel
    ensures Decide(host, settings, ctx, pathInfo).Internal? ==>
              settings.redirectUrl != FrontSentinel &&
              Decide(host, settings, ctx, pathInfo).path == settings.redirectUrl
  {
  }

  /** For an internal, non-front destination, a redirect is produced exactly
      when the destination does not occur inside the stripped path. */
  lemma InternalIffNotContained(host: Host, settings: Settings, ctx: Context, pathInfo: string)
    requires GateOpen(settings, ctx)
    requires !Overridden(host, settings, StripLanguagePrefix(pathInfo, ctx.languageId))
    requires !host.isExternal(settings.redirectUrl)
    requires settings.redirectUrl != FrontSentinel
    ensures Decide(host, settings, ctx, pathInfo).Internal? <==>
              !Contains(StripLanguagePrefix(pathInfo, ctx.languageId), settings.redirectUrl)
    ensures !Decide(host, settings, ctx, pathInfo).Internal? ==>
              Decide(host, settings, ctx, pathInfo) == NoAction
  {
  }

  /** A destination found inside the stripped path never triggers the
      internal redirect. */
  lemma ContainedDestinationNoInternal(host: Host, settings: Settings, ctx: Context, pathInfo: string, at: nat)
    requires OccursAt(StripLanguagePrefix(pathInfo, ctx.languageId), settings.redirectUrl, at)
    ensures !Decide(host, settings, ctx, pathInfo).Internal?
  {
  }

  /** An empty destination that is not external never redirects: the empty
      string occurs in every path. */
  lemma EmptyDestinationNoAction(host: Host, settings: Settings, ctx: Context, pathInfo: string)
    requires settings.redirectUrl == ""
    requires !host.isExternal("")
    ensures Decide(host, settings, ctx, pathInfo) == NoAction
  {
    assert OccursAt(StripLanguagePrefix(pathInfo, ctx.languageId), "", 0);
  }

  /** The internal redirect carries a destination query, equal to the stripped
      path, exactly when it goes to the login page from a path other than "/". */
  lemma LoginDestinationQuery(host: Host, settings: Settings, ctx: Context, pathInfo: string)
    requires Decide(host, settings, ctx, pathInfo).Internal?
    ensures Decide(host, settings, ctx, pathInfo).destination.Some? <==>
              settings.redirectUrl == host.loginPath &&
              StripLanguagePrefix(pathInfo, ctx.languageId) != "/"
    ensures Decide(host, settings, ctx, pathInfo).destination.Some? ==>
              Decide(host, settings, ctx, pathInfo).destination.value ==
                StripLanguagePrefix(pathInfo, ctx.languageId)
  {
  }

  // ----- Properties of the helpers -----

  /** The stripped path is a suffix of the request path. */
  lemma StrippedIsSuffix(path: string, languageId: string)
    ensures var r := StripLanguagePrefix(path, languageId);
            |r| <= |path| && r == path[|path| - |r|..]
  {
  }

  /** "/en/example" in English is evaluated as "/example". */
  lemma StripEnglishPrefix()
    ensures StripLanguagePrefix("/en/example", "en") == "/example"
  {
    assert "/en/example"[1..3] == "en";
    assert "/en/example"[3..] == "/example";
  }

  /** No "/" is needed after the language id: "/english" in English is
      evaluated as "glish". */
  lemma StripWithoutSlash()
    ensures StripLanguagePrefix("/english", "en") == "glish"
  {
    assert "/english"[1..3] == "en";
    assert "/english"[3..] == "glish";
  }

  /** A path whose second and third characters are not the language id is
      left alone. */
  lemma NoPrefixUnchanged()
    ensures StripLanguagePrefix("/example", "en") == "/example"
  {
    assert "/example"[1..3] == "ex";
  }

  /** Splitting non-empty, truthy override text and joining it back is the
      identity, and the split is the only separator-free one. */
  lemma OverrideListIsLines(text: string, lines: seq<string>)
    requires IsTruthy(text)
    requires |lines| >= 1 && Implode(lines) == text
    requires forall i :: 0 <= i < |lines| ==> FreeOfCRLF(lines[i])
    ensures OverrideList(text) == lines
  {
    ExplodeImplode(lines);
  }
}
