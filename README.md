# Custom anonymous redirect: the request-time decision

This project models the core of the Drupal module *custom_anonymous_redirect*:
the request-event subscriber `CustomAnonymousRedirectSubscriber`, whose
`redirectAnonymous` runs on every incoming request and either leaves the
request alone, answers it with a trusted redirect to an external URL, or
redirects the anonymous visitor to an internal path (the front page, or the
configured destination, with a `destination` query when that destination is
the login page).

Files:

- `Wrappers.dfy`: the `Option` datatype.
- `PhpString.dfy`: the PHP 8 string builtins the subscriber uses, as
  functions: `substr` (`Substr`, `SubstrFrom`), `strpos` (`StrPos`),
  `explode`/`implode` on "\r\n" (`Explode`, `Implode`) and the truthiness
  of a string (`IsTruthy`: anything but "" and "0"), with the round trips
  between `Explode` and `Implode` proved in both directions.
- `RedirectDecision.dfy`: the settings, the request context, the host
  services and the pure decision. `Decide` follows the subscriber's
  short-circuit chain (gate, alter hook, CRLF split, language prefix strip,
  override check, external destination, `<front>`, substring check, login
  special case) and returns an `Outcome`; `Render` turns the outcome into
  the response the event receives. The lemmas state what each branch
  guarantees.
- `Subscriber.dfy`: the request event as a class with a mutable `response`
  and the subscriber as a class holding the host services; its method
  `RedirectAnonymous` mirrors the PHP statement by statement (early returns,
  reassignment of the current path and of the redirect URL, two separate
  `if`s for the front page and the configured route) and is proved to set
  exactly `Render(Decide(...))`, at most once. The kernel test's scenarios are
  restated as lemmas on a concrete host.

The host framework is a parameter (`Host`): the front page and login page
URL strings, the external-URL test, the path matcher, the
`custom_anonymous_redirect_paths` alter hook as a text-to-text function, and
the two URL builders (a user-input URL with a `destination` query, and an
`internal:` URI turned into a URL string). The configuration values
(`enable_redirect`, `redirect_url`, `redirect_url_overrides`), the
authentication status, the maintenance-mode state and the current language id
are inputs (`Settings`, `Context`).

Behaviour worth knowing, as the code has it:

- The language prefix is stripped when the characters after the first one
  spell the language id; no "/" needs to follow, so "/english" in English is
  evaluated as "glish". An empty language id drops the first character.
- The destination check is a substring test (`strpos(...) === FALSE` under
  PHP 8), so a path that contains the destination anywhere, and every path
  when the destination is empty, gets no redirect.
- The whole (altered) override text, not each entry, is handed to the path
  matcher; the exact-entry test uses the CRLF-split list.
- The override text "0" is falsy, so the override list is empty, while the
  path matcher still receives "0".

## Model

| member | source | states |
|---|---|---|
| PhpString.Substr | src/EventSubscriber/CustomAnonymousRedirectSubscriber.php:113 | `substr` with offset and length: the characters from the offset on, at most `length` of them, and "" past the end |
| PhpString.SubstrFrom | src/EventSubscriber/CustomAnonymousRedirectSubscriber.php:114 | `substr` without a length: all characters from the offset on, "" past the end |
| PhpString.StrPos | src/EventSubscriber/CustomAnonymousRedirectSubscriber.php:138 | `strpos`: the first index at which the needle occurs, and None exactly when the needle occurs nowhere (an empty needle occurs at 0) |
| PhpString.Explode | src/EventSubscriber/CustomAnonymousRedirectSubscriber.php:103 | `explode("\r\n", ...)` yields at least one piece, the first a prefix of the text |
| PhpString.ImplodeExplode | src/EventSubscriber/CustomAnonymousRedirectSubscriber.php:103 | joining the pieces of the split with "\r\n" gives back the original text |
| PhpString.ExplodePiecesFree | src/EventSubscriber/CustomAnonymousRedirectSubscriber.php:103 | no piece of the split contains "\r\n" |
| PhpString.ExplodeImplode | src/EventSubscriber/CustomAnonymousRedirectSubscriber.php:103 | splitting a "\r\n"-join of separator-free pieces gives back those pieces |
| RedirectDecision.IsFrontPage | src/EventSubscriber/CustomAnonymousRedirectSubscriber.php:168-175 | `isFrontPage` is true exactly for the string "<front>" |
| RedirectDecision.StripLanguagePrefix | src/EventSubscriber/CustomAnonymousRedirectSubscriber.php:107-115 | when characters 1..\|lang\| of the path equal the language id, the result is the path without its first \|lang\|+1 characters; otherwise the path unchanged |
| RedirectDecision.OverrideList | src/EventSubscriber/CustomAnonymousRedirectSubscriber.php:99-103 | falsy override text gives an empty list; otherwise the list joins back to the text and no entry contains "\r\n" |
| RedirectDecision.OverrideListIsLines | src/EventSubscriber/CustomAnonymousRedirectSubscriber.php:103 | for truthy text the override list is the only separator-free cut of the text into lines |
| RedirectDecision.ResponseOnlyWhenEligible | src/EventSubscriber/CustomAnonymousRedirectSubscriber.php:90-122 | any outcome other than no action needs the redirect enabled, an anonymous visitor, no maintenance mode and a stripped path that is not exempt |
| RedirectDecision.GateClosedNoAction | src/EventSubscriber/CustomAnonymousRedirectSubscriber.php:90-95 | redirect disabled, authenticated account or maintenance mode: no response, whatever the path, destination or overrides |
| RedirectDecision.OverriddenNoAction | src/EventSubscriber/CustomAnonymousRedirectSubscriber.php:117-122 | a stripped path that is an entry of the override list or that the path matcher matches against the override text gets no response |
| RedirectDecision.ExternalDestination | src/EventSubscriber/CustomAnonymousRedirectSubscriber.php:124-128 | past the gate and the overrides, an external destination yields a trusted redirect whose target is exactly the destination |
| RedirectDecision.TrustedOnlyForExternal | src/EventSubscriber/CustomAnonymousRedirectSubscriber.php:124-128 | a trusted redirect is produced exactly when the gate is open, the path is not exempt and the destination is external, and it carries the destination unchanged |
| RedirectDecision.FrontPageDestination | src/EventSubscriber/CustomAnonymousRedirectSubscriber.php:130-138 | with the "<front>" destination the front page redirect happens exactly when the stripped path differs from the front page path, and otherwise there is no response |
| RedirectDecision.BranchesFollowDestination | src/EventSubscriber/CustomAnonymousRedirectSubscriber.php:130-156 | the front page redirect needs the "<front>" destination; the internal redirect needs another destination and targets that destination |
| RedirectDecision.InternalIffNotContained | src/EventSubscriber/CustomAnonymousRedirectSubscriber.php:137-138 | for a non-external destination other than "<front>", the internal redirect happens exactly when the destination does not occur in the stripped path, and otherwise there is no response |
| RedirectDecision.ContainedDestinationNoInternal | src/EventSubscriber/CustomAnonymousRedirectSubscriber.php:138 | a destination occurring anywhere in the stripped path never triggers the internal redirect |
| RedirectDecision.EmptyDestinationNoAction | src/EventSubscriber/CustomAnonymousRedirectSubscriber.php:138 | an empty, non-external destination never produces a response |
| RedirectDecision.LoginDestinationQuery | src/EventSubscriber/CustomAnonymousRedirectSubscriber.php:139-149 | the internal redirect carries a destination query exactly when the destination is the login path and the stripped path is not "/", and the query is the stripped path |
| RedirectDecision.StrippedIsSuffix | src/EventSubscriber/CustomAnonymousRedirectSubscriber.php:113-115 | the evaluated path is a suffix of the request path |
| RedirectDecision.StripEnglishPrefix | src/EventSubscriber/CustomAnonymousRedirectSubscriber.php:107-115 | "/en/example" in English is evaluated as "/example" |
| RedirectDecision.StripWithoutSlash | src/EventSubscriber/CustomAnonymousRedirectSubscriber.php:113-114 | "/english" in English is evaluated as "glish" |
| RedirectDecision.NoPrefixUnchanged | src/EventSubscriber/CustomAnonymousRedirectSubscriber.php:113 | "/example" in English is evaluated unchanged |
| Subscriber.RequestEvent.SetResponse | src/EventSubscriber/CustomAnonymousRedirectSubscriber.php:126 | setting a response replaces the event's response and counts one more response set |
| Subscriber.CustomAnonymousRedirectSubscriber.constructor | src/EventSubscriber/CustomAnonymousRedirectSubscriber.php:63-68 | the subscriber keeps the injected services |
| Subscriber.CustomAnonymousRedirectSubscriber.RedirectAnonymous | src/EventSubscriber/CustomAnonymousRedirectSubscriber.php:84-157 | the event's new response is the rendered decision when there is one and the old response otherwise, and exactly one response is set when the decision is not "no action", none otherwise |
| Subscriber.AnonymousVisitorRedirected | tests/Kernel/CustomAnonymousRedirectSubscriberTest.php:114-120 | an anonymous visitor of "/example" is redirected to "/test-redirect-url" |
| Subscriber.MaintenanceModeNoResponse | tests/Kernel/CustomAnonymousRedirectSubscriberTest.php:122-127 | in maintenance mode there is no response |
| Subscriber.OverriddenPathNoResponse | tests/Kernel/CustomAnonymousRedirectSubscriberTest.php:129-137 | "/example2" with override text "/example2" gets no response |
| Subscriber.AuthenticatedNoResponse | tests/Kernel/CustomAnonymousRedirectSubscriberTest.php:164-179 | an authenticated account gets no response |
| Subscriber.ExternalRedirectTrusted | tests/Kernel/CustomAnonymousRedirectSubscriberTest.php:147-158 | an external destination yields a trusted redirect to that URL |
| Subscriber.LoginCarriesDestination | src/EventSubscriber/CustomAnonymousRedirectSubscriber.php:139-156 | a visitor of "/dashboard" sent to the login page gets a redirect with destination "/dashboard" |
| Subscriber.SubPathNotRedirected | src/EventSubscriber/CustomAnonymousRedirectSubscriber.php:137-138 | "/special/sub" with destination "/special" gets no response |
| Subscriber.HandleTestRequest | tests/Kernel/CustomAnonymousRedirectSubscriberTest.php:107-120 | handling a fresh event for "/example" leaves the redirect to "/test-redirect-url" on it |

`Decide` and `Render` carry no contract of their own: they are the
specification that the lemmas above and the `RedirectAnonymous` method are
stated against.

## Left out

- Loose comparison: `==` at src/EventSubscriber/CustomAnonymousRedirectSubscriber.php:113 and the non-strict `in_array` at src/EventSubscriber/CustomAnonymousRedirectSubscriber.php:119 are modelled as plain string equality; PHP would also equate two numeric strings such as "1" and "01". Language ids and paths are not numeric in practice.
- Byte semantics: PHP's `substr` and `strlen` count bytes; the model counts characters, so a multibyte language id or path is not modelled byte for byte.
- `strpos` follows PHP 8, where an empty needle is found at index 0; under PHP 7 it warned and returned FALSE.
- Missing configuration values (NULL) are not modelled; the settings are strings and a boolean.
- The host services are parameters and are not modelled: the path matcher's wildcard semantics, the URL helper's external-URL test, and the route and URL builders with their base-path handling and query-string encoding.
- The alter hook is one text-to-text function; how the module handler orders several implementations is host behaviour. The documented example hook in custom_anonymous_redirect.api.php writes to a local array and has no effect.
- The configuration, state, current-user and language lookups are inputs; the event subscription and its priority (getSubscribedEvents) are dispatch plumbing.
- The settings form (src/Form/CustomAnonymousRedirectSettingsForm.php) only copies three form values into the three configuration keys and flushes all caches; it is not part of this model.
- Exceptions thrown by the host's URL construction for a malformed destination are not modelled.
- The kernel test constructs a class `AnonymousRedirectSubscriber` with three arguments, while the subscriber is `CustomAnonymousRedirectSubscriber` with four; the scenario lemmas follow the subscriber as written, on a host whose path matcher never matches, with no alter hook and no base path.
