/** The redirect middleware: it turns a request path into a slug, looks the
    link up, runs the password and unsafe-confirmation gates and then picks
    one effect (store redirect, preview page, cloaking page or plain
    redirect). Framework calls become values: a request record in, a
    response value out. */
module RedirectMiddleware {
  import opened Wrappers
  import opened Text
  import opened Links
  import RedirectI18n

  // ----- user-agent helpers -----

  const SocialBots: seq<string> := [
    "applebot", "discordbot", "facebot", "facebookexternalhit", "linkedinbot",
    "linkexpanding", "mastodon", "skypeuripreview", "slackbot",
    "slackbot-linkexpanding", "snapchat", "telegrambot", "tiktok",
    "twitterbot", "whatsapp"]

  /** Some token of `bots[k..]` occurs in `ua` (`bots.some(bot => ua.includes(bot))`). */
  function AnyOccurs(ua: string, bots: seq<string>, k: nat): (r: bool)
    requires k <= |bots|
    ensures r <==> exists i :: k <= i < |bots| && Contains(ua, bots[i])
    decreases |bots| - k
  {
    if k == |bots| then false
    else Contains(ua, bots[k]) || AnyOccurs(ua, bots, k + 1)
  }

  /** `isSocialBot`: the lower-cased user agent contains one of the bot tokens. */
  function IsSocialBot(userAgent: string): (r: bool)
    ensures r <==> exists i :: 0 <= i < |SocialBots| && Contains(Lower(userAgent), SocialBots[i])
  {
    AnyOccurs(Lower(userAgent), SocialBots, 0)
  }

  /** Bot detection ignores the case of the user agent. */
  lemma SocialBotIgnoresCase(userAgent: string)
    ensures IsSocialBot(Lower(userAgent)) == IsSocialBot(userAgent)
  {
    LowerIdempotent(userAgent);
  }

  predicate IsAndroid(ua: string) {
    Contains(Lower(ua), "android")
  }

  predicate IsAppleDevice(ua: string) {
    var l := Lower(ua);
    Contains(l, "iphone") || Contains(l, "ipad") || Contains(l, "ipod")
  }

  /** `getDeviceRedirectUrl`: the Play Store link for Android, else the App
      Store link for iPhone, iPad and iPod, else nothing. */
  function DeviceRedirectUrl(userAgent: string, link: Link): (r: Option<string>)
    ensures r.Some? <==> (Truthy(link.google) && IsAndroid(userAgent))
                         || (Truthy(link.apple) && IsAppleDevice(userAgent))
    ensures Truthy(link.google) && IsAndroid(userAgent) ==> r == link.google
    ensures r.Some? && !(Truthy(link.google) && IsAndroid(userAgent)) ==> r == link.apple
    ensures r.Some? ==> r.value != ""
  {
    if !Truthy(link.apple) && !Truthy(link.google) then None
    else if Truthy(link.google) && IsAndroid(userAgent) then link.google
    else if Truthy(link.apple) && IsAppleDevice(userAgent) then link.apple
    else None
  }

  /** `hasOgConfig`: the link has a title or an image to preview. */
  predicate HasOgConfig(link: Link): (r: bool)
    ensures r ==> link.title.Some? || link.image.Some?
    ensures link.title.None? && link.image.None? ==> !r
  {
    Truthy(link.title) || Truthy(link.image)
  }

  // ----- slug -----

  /** `path.replace(/^\/|\/$/g, '')`: one leading slash goes, then one
      trailing slash of what is left. */
  function StripSlashes(path: string): (r: string)
    ensures exists pre, post ::
              && pre in {"", "/"} && post in {"", "/"} && path == pre + r + post
    ensures StartsWith(path, "/") ==> path == "/" + r || path == "/" + r + "/"
    ensures |path| >= 2 && path[|path| - 1] == '/' ==> |r| == |path| - (if path[0] == '/' then 2 else 1)
    ensures path != [] && path[0] != '/' && path[|path| - 1] != '/' ==> r == path
  {
    var a := if |path| > 0 && path[0] == '/' then 1 else 0;
    var rest := path[a..];
    assert a == 0 ==> path[..a] == "";
    assert a == 1 ==> path[..a] == [path[0]] == "/";
    if |rest| > 0 && rest[|rest| - 1] == '/' then
      assert path == path[..a] + rest[..|rest| - 1] + "/";
      rest[..|rest| - 1]
    else
      assert path == path[..a] + rest + "";
      rest
  }

  /** Slashes inside a slug survive; only the outer ones are stripped. */
  lemma StripSlashesRoundTrip(s: string)
    requires s == [] || (s[0] != '/' && s[|s| - 1] != '/')
    ensures StripSlashes("/" + s) == s
    ensures StripSlashes("/" + s + "/") == s
    ensures StripSlashes(s) == s
  {
    assert ("/" + s)[1..] == s;
    assert ("/" + s + "/")[1..] == s + "/";
    assert (s + "/")[..|s|] == s;
  }

  /** The pathname `parsePath` reports: everything before the first `?` or `#`. */
  function PathnameOf(s: string): (r: string)
    ensures r <= s
    ensures '?' !in r && '#' !in r
    ensures |r| < |s| ==> s[|r|] == '?' || s[|r|] == '#'
  {
    if s == [] || s[0] == '?' || s[0] == '#' then []
    else [s[0]] + PathnameOf(s[1..])
  }

  /** The slug a request path names: the path without its outer slashes, cut
      before the first `?` or `#`. */
  function SlugOf(path: string): (r: string)
    ensures r <= StripSlashes(path)
    ensures '?' !in r && '#' !in r
    ensures |r| < |StripSlashes(path)| ==> StripSlashes(path)[|r|] == '?' || StripSlashes(path)[|r|] == '#'
    ensures '?' !in path && '#' !in path ==> r == StripSlashes(path)
  {
    PathnameOf(StripSlashes(path))
  }

  // ----- configuration and request -----

  datatype Config = Config(
    homeURL: string,
    notFoundRedirect: string,
    caseSensitive: bool,
    redirectWithQuery: bool,
    redirectStatusCode: int,
    reserveSlug: seq<string>,
    /** `slugRegex.test`. */
    slugPattern: string -> bool)

  /** The form fields of a POST body; a field that is missing or not a
      string is `None`, since it is never strictly equal to a string. */
  datatype Body = Body(password: Option<string>, confirm: Option<string>)

  datatype Request = Request(
    path: string,
    httpMethod: string,
    acceptLanguage: Option<string>,
    userAgent: Option<string>,
    linkPassword: Option<string>,
    linkConfirm: Option<string>,
    body: Body,
    protocol: string,
    host: string,
    /** whether the Cloudflare context is present */
    cloudflare: bool)

  /** Library calls the handler makes: `withQuery`, `getQuery` (which parses
      the query out of the request path) and the locale primitives. */
  datatype Env = Env(
    withQuery: (string, map<string, string>) -> string,
    getQuery: string -> map<string, string>,
    intl: RedirectI18n.Intl)

  // ----- responses -----

  /** The pages the handler renders, with the arguments it renders them from. */
  datatype Page =
    | PasswordPage(slug: string, hasError: bool, locale: string)
    | UnsafePage(slug: string, targetUrl: string, carriedPassword: Option<string>, locale: string)
    | PreviewPage(link: Link, targetUrl: string, baseUrl: string)
    | CloakingPage(link: Link, targetUrl: string, baseUrl: string)

  datatype Response =
    | Redirect(url: string, code: int)
    | Html(page: Page, headers: map<string, string>)
    | Error(status: int, statusText: string)
    /** the handler returns nothing and the next handler runs */
    | PassThrough

  const HtmlType := "text/html; charset=utf-8"
  const IncorrectPassword := "Incorrect password"
  const ConfirmRequired := "Unsafe link: confirmation required (set x-link-confirm: true header)"
  const LinkNotFound := "Link not found"

  /** The headers `sendNoStoreHtml` sets on gate pages. */
  const NoStore: map<string, string> := map["Content-Type" := HtmlType, "Cache-Control" := "no-store"]

  // ----- the decision procedure -----

  /** The preamble checks let the request through to the lookup. */
  predicate PassesPreamble(req: Request, cfg: Config) {
    && !(req.path == "/" && cfg.homeURL != "")
    && !(cfg.notFoundRedirect != "" && req.path == cfg.notFoundRedirect)
  }

  /** The slug is one the handler looks up. */
  predicate Eligible(slug: string, cfg: Config, cloudflare: bool) {
    slug != "" && slug !in cfg.reserveSlug && cfg.slugPattern(slug) && cloudflare
  }

  /** The link the lookups find: the lower-cased slug first unless lookups are
      case-sensitive, then the slug as given if that missed and differs. */
  function FindLink(store: map<string, Link>, slug: string, caseSensitive: bool): (r: Option<Link>)
    ensures r.Some? ==> exists key :: key in store && key in {slug, Lower(slug)} && r.value == store[key]
    ensures caseSensitive ==> (r.Some? <==> slug in store)
    ensures !caseSensitive && Lower(slug) in store ==> r == Some(store[Lower(slug)])
    ensures caseSensitive ==> r == if slug in store then Some(store[slug]) else None
    ensures !caseSensitive && Lower(slug) !in store ==> r == if slug in store then Some(store[slug]) else None
  {
    var first := if caseSensitive then slug else Lower(slug);
    if first in store then Some(store[first])
    else if !caseSensitive && Lower(slug) != slug && slug in store then Some(store[slug])
    else None
  }

  /** In case-insensitive mode a slug that has no upper-case letters finds
      exactly the link stored under that key. */
  lemma LowerSlugFindsOnlyItsKey(store: map<string, Link>, slug: string)
    requires forall i :: 0 <= i < |slug| ==> !IsAsciiUpper(slug[i])
    ensures FindLink(store, slug, false) == if slug in store then Some(store[slug]) else None
  {
    assert Lower(slug) == slug;
  }

  /** A link stored under a mixed-case key cannot be reached through its
      lower-case spelling when lookups are case-insensitive. */
  lemma MixedCaseKeyUnreachable(l: Link)
    ensures FindLink(map["MySlug" := l], "myslug", false) == None
  {
    LowerSlugFindsOnlyItsKey(map["MySlug" := l], "myslug");
    assert "myslug"[0] != "MySlug"[1 - 1];
  }

  /** In case-insensitive mode a link stored under a mixed-case key is still
      found through that exact spelling, by the fallback lookup. */
  lemma MixedCaseKeyFoundAsStored(l: Link)
    ensures FindLink(map["MySlug" := l], "MySlug", false) == Some(l)
  {
    assert Lower("MySlug")[0] == 'm';
    assert Lower("MySlug") != "MySlug";
  }

  /** The password and unsafe-confirmation gates; `None` lets the request through. */
  /** Every page a gate serves is a password or warning page sent with
      `Cache-Control: no-store`, and a gate that stops the request without a
      page answers 403. */
  function GateOutcome(link: Link, slug: string, req: Request, locale: string): (r: Option<Response>)
    ensures r.Some? ==> (IsGatePage(r.value) && r.value.headers == NoStore) || (r.value.Error? && r.value.status == 403)
    ensures r.Some? && IsGatePage(r.value) && r.value.page.PasswordPage? ==> r.value.page.slug == slug
    ensures r.Some? && IsGatePage(r.value) && r.value.page.UnsafePage?
            ==> r.value.page.slug == slug && r.value.page.targetUrl == link.url
  {
    if Truthy(link.password) then
      if req.httpMethod == "POST" then
        if req.body.password != link.password then
          Some(Html(PasswordPage(slug, true, locale), NoStore))
        else if IsTrue(link.unsafe) && req.body.confirm != Some("true") then
          Some(Html(UnsafePage(slug, link.url, link.password, locale), NoStore))
        else None
      else if Truthy(req.linkPassword) then
        if req.linkPassword != link.password then Some(Error(403, IncorrectPassword))
        else if IsTrue(link.unsafe) && req.linkConfirm != Some("true") then Some(Error(403, ConfirmRequired))
        else None
      else Some(Html(PasswordPage(slug, false, locale), NoStore))
    else if IsTrue(link.unsafe) then
      if req.httpMethod == "POST" && req.body.confirm == Some("true") then None
      else Some(Html(UnsafePage(slug, link.url, None, locale), NoStore))
    else None
  }

  /** The response is a password or unsafe-warning page. */
  predicate IsGatePage(r: Response) {
    r.Html? && (r.page.PasswordPage? || r.page.UnsafePage?)
  }

  /** The target URL, with the request query merged in iff the link's own
      setting, or the configured default when the link has none, says so. */
  function Target(link: Link, req: Request, cfg: Config, env: Env): (r: string)
    ensures r == link.url || r == env.withQuery(link.url, env.getQuery(req.path))
  {
    if link.redirectWithQuery.GetOr(cfg.redirectWithQuery) then env.withQuery(link.url, env.getQuery(req.path))
    else link.url
  }

  function BaseUrl(req: Request): string {
    req.protocol + "://" + req.host
  }

  /** The effect once every gate has passed: a redirect, a preview page or a
      cloaking page, never a gate page or an error. */
  function Effect(link: Link, req: Request, cfg: Config, env: Env): (r: Response)
    ensures r.Redirect? || (r.Html? && (r.page.PreviewPage? || r.page.CloakingPage?))
    ensures r.Redirect? ==> r.url == link.url || r.url == env.withQuery(link.url, env.getQuery(req.path))
                            || Some(r.url) in {link.apple, link.google}
  {
    var ua := req.userAgent.GetOr("");
    var device := DeviceRedirectUrl(ua, link);
    if device.Some? then Redirect(device.value, cfg.redirectStatusCode)
    else if IsSocialBot(ua) && HasOgConfig(link) then
      Html(PreviewPage(link, Target(link, req, cfg, env), BaseUrl(req)), map["Content-Type" := HtmlType])
    else if IsTrue(link.cloaking) then
      Html(CloakingPage(link, Target(link, req, cfg, env), BaseUrl(req)),
           map["Content-Type" := HtmlType, "Cache-Control" := "no-store, private"])
    else Redirect(Target(link, req, cfg, env), cfg.redirectStatusCode)
  }

  /** The response to a request, `store` standing in for `getLink`: it passes
      through only when no lookup happens, and it sends a page only for a
      stored link. */
  function Resolve(req: Request, cfg: Config, env: Env, store: map<string, Link>): (r: Response)
    ensures r.PassThrough? ==> !PassesPreamble(req, cfg) || !Eligible(SlugOf(req.path), cfg, req.cloudflare)
    ensures r.Html? ==> FindLink(store, SlugOf(req.path), cfg.caseSensitive).Some?
  {
    var slug := SlugOf(req.path);
    if req.path == "/" && cfg.homeURL != "" then Redirect(cfg.homeURL, 302)
    else if cfg.notFoundRedirect != "" && req.path == cfg.notFoundRedirect then PassThrough
    else if !Eligible(slug, cfg, req.cloudflare) then PassThrough
    else match FindLink(store, slug, cfg.caseSensitive)
      case None =>
        if cfg.notFoundRedirect != "" then Redirect(cfg.notFoundRedirect, 302)
        else Error(404, LinkNotFound)
      case Some(link) =>
        var locale := RedirectI18n.ResolveRedirectLocale(req.acceptLanguage, env.intl);
        match GateOutcome(link, slug, req, locale)
        case Some(r) => r
        case None => Effect(link, req, cfg, env)
  }

  /** The preamble: `/` goes home when a home URL is set, the not-found path
      itself passes through, and no lookup happens for an ineligible slug. */
  lemma PreambleIsTerminal(req: Request, cfg: Config, env: Env, store: map<string, Link>)
    ensures req.path == "/" && cfg.homeURL != "" ==> Resolve(req, cfg, env, store) == Redirect(cfg.homeURL, 302)
    ensures !(req.path == "/" && cfg.homeURL != "") && cfg.notFoundRedirect != "" && req.path == cfg.notFoundRedirect
            ==> Resolve(req, cfg, env, store) == PassThrough
    ensures PassesPreamble(req, cfg) && !Eligible(SlugOf(req.path), cfg, req.cloudflare)
            ==> Resolve(req, cfg, env, store) == PassThrough
  {
  }

  /** A slug with no stored link is redirected to the not-found URL with 302
      when one is configured, and answered with 404 otherwise. */
  lemma MissingLink(req: Request, cfg: Config, env: Env, store: map<string, Link>)
    requires PassesPreamble(req, cfg) && Eligible(SlugOf(req.path), cfg, req.cloudflare)
    requires FindLink(store, SlugOf(req.path), cfg.caseSensitive).None?
    ensures Resolve(req, cfg, env, store)
            == if cfg.notFoundRedirect != "" then Redirect(cfg.notFoundRedirect, 302) else Error(404, LinkNotFound)
  {
  }

  /** A found link answers with the gate's response when a gate stops the
      request and with the effect otherwise. */
  lemma FoundLink(req: Request, cfg: Config, env: Env, store: map<string, Link>, link: Link)
    requires PassesPreamble(req, cfg) && Eligible(SlugOf(req.path), cfg, req.cloudflare)
    requires FindLink(store, SlugOf(req.path), cfg.caseSensitive) == Some(link)
    ensures var g := GateOutcome(link, SlugOf(req.path), req,
                                 RedirectI18n.ResolveRedirectLocale(req.acceptLanguage, env.intl));
            Resolve(req, cfg, env, store) == if g.Some? then g.value else Effect(link, req, cfg, env)
  {
  }

  /** A found link fails only with 403, and its gate pages are `no-store`. */
  lemma FoundStatuses(link: Link, slug: string, req: Request, locale: string, cfg: Config, env: Env)
    ensures var g := GateOutcome(link, slug, req, locale);
            var r := if g.Some? then g.value else Effect(link, req, cfg, env);
            && (r.Error? ==> r.status == 403)
            && (IsGatePage(r) ==> r.headers == NoStore)
  {
    var g := GateOutcome(link, slug, req, locale);
    if g.None? {
      var e := Effect(link, req, cfg, env);
      assert !e.Error? && !IsGatePage(e);
    }
  }

  /** The handler fails only with 403 from a gate or 404 for a missing link,
      and every gate page it sends is marked `no-store`. */
  lemma ResolveStatuses(req: Request, cfg: Config, env: Env, store: map<string, Link>)
    ensures var r := Resolve(req, cfg, env, store);
            && (r.Error? ==> r.status == 403 || r.status == 404)
            && (IsGatePage(r) ==> r.headers == NoStore)
  {
    var slug := SlugOf(req.path);
    if PassesPreamble(req, cfg) && Eligible(slug, cfg, req.cloudflare) {
      match FindLink(store, slug, cfg.caseSensitive)
      case None =>
        MissingLink(req, cfg, env, store);
      case Some(link) =>
        FoundLink(req, cfg, env, store, link);
        FoundStatuses(link, slug, req, RedirectI18n.ResolveRedirectLocale(req.acceptLanguage, env.intl), cfg, env);
    } else {
      PreambleIsTerminal(req, cfg, env, store);
    }
  }

  /** A password link and a POST: a wrong body password shows the password
      page with its error, a right one on an unsafe link without
      `confirm=true` shows the warning page carrying the password, and
      anything else passes. */
  lemma PasswordPostGate(link: Link, slug: string, req: Request, locale: string)
    requires Truthy(link.password) && req.httpMethod == "POST"
    ensures req.body.password != link.password
            ==> GateOutcome(link, slug, req, locale) == Some(Html(PasswordPage(slug, true, locale), NoStore))
    ensures req.body.password == link.password && IsTrue(link.unsafe) && req.body.confirm != Some("true")
            ==> GateOutcome(link, slug, req, locale)
                == Some(Html(UnsafePage(slug, link.url, link.password, locale), NoStore))
    ensures GateOutcome(link, slug, req, locale).None?
            <==> req.body.password == link.password && (!IsTrue(link.unsafe) || req.body.confirm == Some("true"))
  {
  }

  /** A password link and any other method: a wrong `x-link-password` is 403,
      a right one on an unsafe link without `x-link-confirm: true` is 403, no
      header shows the password page without error, and the warning page is
      never shown. */
  lemma PasswordHeaderGate(link: Link, slug: string, req: Request, locale: string)
    requires Truthy(link.password) && req.httpMethod != "POST"
    ensures Truthy(req.linkPassword) && req.linkPassword != link.password
            ==> GateOutcome(link, slug, req, locale) == Some(Error(403, IncorrectPassword))
    ensures req.linkPassword == link.password && IsTrue(link.unsafe) && req.linkConfirm != Some("true")
            ==> GateOutcome(link, slug, req, locale) == Some(Error(403, ConfirmRequired))
    ensures !Truthy(req.linkPassword)
            ==> GateOutcome(link, slug, req, locale) == Some(Html(PasswordPage(slug, false, locale), NoStore))
    ensures GateOutcome(link, slug, req, locale).None?
            <==> req.linkPassword == link.password && (!IsTrue(link.unsafe) || req.linkConfirm == Some("true"))
    ensures GateOutcome(link, slug, req, locale).Some? && GateOutcome(link, slug, req, locale).value.Html?
            ==> GateOutcome(link, slug, req, locale).value.page.PasswordPage?
  {
  }

  /** An unsafe link without a password: anything but a POST gets the warning
      page, and a POST passes iff the body confirms. */
  lemma UnsafeGate(link: Link, slug: string, req: Request, locale: string)
    requires !Truthy(link.password) && IsTrue(link.unsafe)
    ensures req.httpMethod != "POST"
            ==> GateOutcome(link, slug, req, locale) == Some(Html(UnsafePage(slug, link.url, None, locale), NoStore))
    ensures req.httpMethod == "POST"
            ==> (GateOutcome(link, slug, req, locale).None? <==> req.body.confirm == Some("true"))
    ensures GateOutcome(link, slug, req, locale).Some?
            ==> GateOutcome(link, slug, req, locale) == Some(Html(UnsafePage(slug, link.url, None, locale), NoStore))
  {
  }

  /** A link with neither a password nor the unsafe flag has no gate. */
  lemma OpenLinkHasNoGate(link: Link, slug: string, req: Request, locale: string)
    requires !Truthy(link.password) && !IsTrue(link.unsafe)
    ensures GateOutcome(link, slug, req, locale).None?
  {
  }

  /** The gates run before the store redirect: an unsafe link without a
      password shows its warning page to a GET from any device. */
  lemma WarningBeforeDeviceRedirect(req: Request, cfg: Config, env: Env, store: map<string, Link>, link: Link)
    requires PassesPreamble(req, cfg) && Eligible(SlugOf(req.path), cfg, req.cloudflare)
    requires FindLink(store, SlugOf(req.path), cfg.caseSensitive) == Some(link)
    requires !Truthy(link.password) && IsTrue(link.unsafe) && req.httpMethod != "POST"
    ensures Resolve(req, cfg, env, store)
            == Html(UnsafePage(SlugOf(req.path), link.url, None,
                               RedirectI18n.ResolveRedirectLocale(req.acceptLanguage, env.intl)), NoStore)
  {
  }

  /** Effect precedence: a store URL for the device wins and is sent with the
      configured status and no query merge; then the preview page for a
      social bot on a link with a title or image; then the cloaking page;
      then the plain redirect to the target. */
  lemma EffectPrecedence(link: Link, req: Request, cfg: Config, env: Env)
    ensures var ua := req.userAgent.GetOr("");
            var e := Effect(link, req, cfg, env);
            && (DeviceRedirectUrl(ua, link).Some?
                ==> e == Redirect(DeviceRedirectUrl(ua, link).value, cfg.redirectStatusCode))
            && (DeviceRedirectUrl(ua, link).None?
                ==> (e.Html? && e.page.PreviewPage? <==> IsSocialBot(ua) && HasOgConfig(link)))
            && (e.Html? && e.page.PreviewPage?
                ==> e == Html(PreviewPage(link, Target(link, req, cfg, env), BaseUrl(req)), map["Content-Type" := HtmlType]))
            && (DeviceRedirectUrl(ua, link).None? && !(IsSocialBot(ua) && HasOgConfig(link))
                ==> (e.Html? && e.page.CloakingPage? <==> IsTrue(link.cloaking)))
            && (e.Html? && e.page.CloakingPage?
                ==> e.headers == map["Content-Type" := HtmlType, "Cache-Control" := "no-store, private"])
            && (DeviceRedirectUrl(ua, link).None? && !(IsSocialBot(ua) && HasOgConfig(link)) && !IsTrue(link.cloaking)
                ==> e == Redirect(Target(link, req, cfg, env), cfg.redirectStatusCode))
  {
  }

  /** The link's own `redirectWithQuery` decides the query merge; the
      configured default applies only when the link has none. */
  lemma QueryMerge(link: Link, req: Request, cfg: Config, env: Env)
    ensures link.redirectWithQuery == Some(true) ==> Target(link, req, cfg, env) == env.withQuery(link.url, env.getQuery(req.path))
    ensures link.redirectWithQuery == Some(false) ==> Target(link, req, cfg, env) == link.url
    ensures link.redirectWithQuery.None?
            ==> Target(link, req, cfg, env) == if cfg.redirectWithQuery then env.withQuery(link.url, env.getQuery(req.path)) else link.url
  {
  }

  // ----- the handler -----

  /** `getLocale`: the memoised locale, resolved on first use. */
  method GetLocale(memo: Option<string>, req: Request, env: Env) returns (locale: string, memo': Option<string>, resolved: bool)
    requires memo.Some? ==> memo.value == RedirectI18n.ResolveRedirectLocale(req.acceptLanguage, env.intl)
    ensures locale == RedirectI18n.ResolveRedirectLocale(req.acceptLanguage, env.intl)
    ensures memo' == Some(locale)
    ensures resolved <==> memo.None?
  {
    resolved := memo.None?;
    if memo.None? {
      memo' := Some(RedirectI18n.ResolveRedirectLocale(req.acceptLanguage, env.intl));
    } else {
      memo' := memo;
    }
    locale := memo'.value;
  }

  /** The lookups: at most two, the second only after the first missed and
      only when the lower-cased slug differs from the slug. */
  method LookUp(store: map<string, Link>, slug: string, caseSensitive: bool)
    returns (found: Option<Link>, lookups: seq<string>)
    ensures found == FindLink(store, slug, caseSensitive)
    ensures 1 <= |lookups| <= 2
    ensures lookups[0] == if caseSensitive then slug else Lower(slug)
    ensures |lookups| == 2 <==> !caseSensitive && Lower(slug) !in store && Lower(slug) != slug
    ensures |lookups| == 2 ==> lookups[1] == slug
  {
    var lowerCaseSlug := Lower(slug);
    var key := if caseSensitive then slug else lowerCaseSlug;
    lookups := [key];
    found := if key in store then Some(store[key]) else None;
    if !caseSensitive && found.None? && lowerCaseSlug != slug {
      lookups := lookups + [slug];
      found := if slug in store then Some(store[slug]) else None;
    }
  }

  /** The gates, with `sendNoStoreHtml` setting the headers of each page. */
  method RunGates(link: Link, slug: string, req: Request, env: Env)
    returns (outcome: Option<Response>, bodyReads: nat, localeResolutions: nat)
    ensures outcome == GateOutcome(link, slug, req, RedirectI18n.ResolveRedirectLocale(req.acceptLanguage, env.intl))
    ensures bodyReads <= 1 && (bodyReads == 1 ==> req.httpMethod == "POST")
    ensures localeResolutions <= 1
    ensures localeResolutions == 1 <==> outcome.Some? && outcome.value.Html?
  {
    outcome, bodyReads, localeResolutions := None, 0, 0;
    var memo: Option<string> := None;
    var locale: string;
    var resolved: bool;
    var headers: map<string, string> := map[];

    if Truthy(link.password) {
      if req.httpMethod == "POST" {
        var body := req.body;
        bodyReads := bodyReads + 1;
        if body.password != link.password {
          locale, memo, resolved := GetLocale(memo, req, env);
          localeResolutions := localeResolutions + 1;
          headers := headers["Content-Type" := HtmlType];
          headers := headers["Cache-Control" := "no-store"];
          outcome := Some(Html(PasswordPage(slug, true, locale), headers));
          return;
        }
        if IsTrue(link.unsafe) && body.confirm != Some("true") {
          locale, memo, resolved := GetLocale(memo, req, env);
          localeResolutions := localeResolutions + 1;
          headers := headers["Content-Type" := HtmlType];
          headers := headers["Cache-Control" := "no-store"];
          outcome := Some(Html(UnsafePage(slug, link.url, link.password, locale), headers));
          return;
        }
      } else if Truthy(req.linkPassword) {
        if req.linkPassword != link.password {
          outcome := Some(Error(403, IncorrectPassword));
          return;
        }
        if IsTrue(link.unsafe) && req.linkConfirm != Some("true") {
          outcome := Some(Error(403, ConfirmRequired));
          return;
        }
      } else {
        locale, memo, resolved := GetLocale(memo, req, env);
        localeResolutions := localeResolutions + 1;
        headers := headers["Content-Type" := HtmlType];
        headers := headers["Cache-Control" := "no-store"];
        outcome := Some(Html(PasswordPage(slug, false, locale), headers));
        return;
      }
    }

    if !Truthy(link.password) && IsTrue(link.unsafe) {
      var confirmed := false;
      if req.httpMethod == "POST" {
        var body := req.body;
        bodyReads := bodyReads + 1;
        confirmed := body.confirm == Some("true");
      }
      if !confirmed {
        locale, memo, resolved := GetLocale(memo, req, env);
        localeResolutions := localeResolutions + 1;
        headers := headers["Content-Type" := HtmlType];
        headers := headers["Cache-Control" := "no-store"];
        outcome := Some(Html(UnsafePage(slug, link.url, None, locale), headers));
        return;
      }
    }
  }

  /** The effect once the gates have passed, each branch setting its headers. */
  method Apply(link: Link, req: Request, cfg: Config, env: Env) returns (resp: Response)
    ensures resp == Effect(link, req, cfg, env)
  {
    var headers: map<string, string> := map[];
    var userAgent := req.userAgent.GetOr("");
    var deviceRedirectUrl := DeviceRedirectUrl(userAgent, link);
    if deviceRedirectUrl.Some? {
      resp := Redirect(deviceRedirectUrl.value, cfg.redirectStatusCode);
      return;
    }
    if IsSocialBot(userAgent) && HasOgConfig(link) {
      headers := headers["Content-Type" := HtmlType];
      resp := Html(PreviewPage(link, Target(link, req, cfg, env), BaseUrl(req)), headers);
      return;
    }
    if IsTrue(link.cloaking) {
      headers := headers["Content-Type" := HtmlType];
      headers := headers["Cache-Control" := "no-store, private"];
      resp := Html(CloakingPage(link, Target(link, req, cfg, env), BaseUrl(req)), headers);
      return;
    }
    resp := Redirect(Target(link, req, cfg, env), cfg.redirectStatusCode);
  }

  /** A found link: the gates, then the access log, then the effect. */
  method Serve(link: Link, slug: string, req: Request, cfg: Config, env: Env, logFails: bool)
    returns (resp: Response, bodyReads: nat, localeResolutions: nat, logged: bool, logError: bool)
    ensures var g := GateOutcome(link, slug, req, RedirectI18n.ResolveRedirectLocale(req.acceptLanguage, env.intl));
            resp == if g.Some? then g.value else Effect(link, req, cfg, env)
    ensures bodyReads <= 1 && (bodyReads == 1 ==> req.httpMethod == "POST")
    ensures localeResolutions <= 1
    ensures localeResolutions == 1 <==> IsGatePage(resp)
    ensures logged <==> !resp.Error? && !IsGatePage(resp)
    ensures logError <==> logged && logFails
  {
    logged, logError := false, false;
    var gate;
    gate, bodyReads, localeResolutions := RunGates(link, slug, req, env);
    if gate.Some? {
      resp := gate.value;
      return;
    }

    // `useAccessLog` runs; a failure is caught and reported, and changes nothing else.
    logged := true;
    logError := logFails;

    resp := Apply(link, req, cfg, env);
  }

  /** The event handler. Besides the response it reports the keys it looked
      up, how often it read the body, how often it resolved the locale,
      whether it wrote the access log and whether it reported a failure to;
      `logFails` says whether writing the access log throws. */
  method Handle(req: Request, cfg: Config, env: Env, store: map<string, Link>, logFails: bool)
    returns (resp: Response, lookups: seq<string>, bodyReads: nat, localeResolutions: nat, logged: bool, logError: bool)
    ensures resp == Resolve(req, cfg, env, store)
    ensures lookups != [] <==> PassesPreamble(req, cfg) && Eligible(SlugOf(req.path), cfg, req.cloudflare)
    ensures |lookups| <= 2
    ensures lookups != [] ==> lookups[0] == if cfg.caseSensitive then SlugOf(req.path) else Lower(SlugOf(req.path))
    ensures |lookups| == 2 ==> && !cfg.caseSensitive && lookups[0] !in store
                               && lookups[0] != SlugOf(req.path) && lookups[1] == SlugOf(req.path)
    ensures bodyReads <= 1 && (bodyReads == 1 ==> req.httpMethod == "POST")
    ensures localeResolutions <= 1
    ensures localeResolutions == 1 <==> lookups != [] && IsGatePage(resp)
    ensures logged <==> lookups != [] && FindLink(store, SlugOf(req.path), cfg.caseSensitive).Some?
                        && !resp.Error? && !IsGatePage(resp)
    ensures logError <==> logged && logFails
  {
    lookups, bodyReads, localeResolutions, logged, logError := [], 0, 0, false, false;
    var slug := SlugOf(req.path);
    if req.path == "/" && cfg.homeURL != "" {
      resp := Redirect(cfg.homeURL, 302);
      return;
    }
    if cfg.notFoundRedirect != "" && req.path == cfg.notFoundRedirect {
      resp := PassThrough;
      return;
    }
    if !Eligible(slug, cfg, req.cloudflare) {
      resp := PassThrough;
      return;
    }

    var found;
    found, lookups := LookUp(store, slug, cfg.caseSensitive);
    if found.None? {
      if cfg.notFoundRedirect != "" {
        resp := Redirect(cfg.notFoundRedirect, 302);
      } else {
        resp := Error(404, LinkNotFound);
      }
      return;
    }
    resp, bodyReads, localeResolutions, logged, logError := Serve(found.value, slug, req, cfg, env, logFails);
  }
}
