# Sink redirect core in Dafny

Sink is a link shortener. A request for `/<slug>` goes through a redirect middleware. That middleware:

1. Derives the slug from the path.
2. Looks the link up, case-sensitively or not.
3. Runs two gates: password protection and unsafe-link confirmation.
4. Picks one effect, in this order: an app-store redirect for the visiting device, an Open Graph preview page for social-media bots, a cloaking page that frames the target, or a plain redirect with an optional query merge.

The middleware resolves a locale for the password and warning pages from the `Accept-Language` header, one of ten. The templates shown ignore it. The HTML pages are built by template helpers. Links are edited and upserted by two API handlers over the link store.

The modules are:

- `Wrappers` (`Wrappers.dfy`): `Option`.
- `Text` (`Text.dfy`): the JavaScript string built-ins the core relies on. These are `includes`, `startsWith`, `split`, `join`, `trim`, `toLowerCase` and `replace` with a one-character pattern, each with a contract or a lemma on what it computes.
- `Links` (`Links.dfy`): the link record. Optional properties are `Option`s, and `None` means the property is absent. It also has the list of optional properties and property read and delete by name.
- `RedirectI18n` (`RedirectI18n.dfy`): the translation table, the supported locales, locale normalisation and header resolution.
  - Sorting is a stable insertion sort, proved ordered and a permutation.
  - A uniqueness lemma shows that this determines the scan order.
  - The module `RedirectI18nExamples` works the resolver on two shapes of header, a single tag and a tag followed by a weighted tag, and on one sample of each.
- `Template` (`Template.dfy`): the HTML escape with its inverse, the meta tags and the four pages.
  - A page is a list of segments. A segment is fixed template markup (an enumeration) or an escaped value.
  - So no stored or request-derived string reaches a page except through `Escape`.
- `RedirectMiddleware` (`Redirect.dfy`):
  - the user-agent helpers and slug derivation;
  - the decision procedure, as spec functions (`FindLink`, `GateOutcome`, `Effect`, `Resolve`) with lemmas for each rule;
  - the imperative handler `Handle`, proved equal to `Resolve`. It also counts lookups, body reads, locale resolutions and access-log writes.
- `LinkApi` (`LinkApi.dfy`):
  - `MergeForEdit`, the merge with its field-deletion loop;
  - the class `LinkStore`, whose `links` map stands in for the KV store, with the `Edit` and `Upsert` handlers.

Calls into code outside the model are parameters of the members that make them:

| Call | Parameter |
|---|---|
| `Intl.getCanonicalLocales` | `Intl.canonicalize` (`None` when it throws) |
| `Number.parseFloat` of a q-value | `Intl.qWeight`, in thousandths |
| `slugRegex.test` | `Config.slugPattern` |
| ufo `withQuery` | `Env.withQuery` |
| h3 `getQuery`, which parses `event.path` | `Env.getQuery`, applied to the request path |
| the host of `parseURL(link.url)` | `host` |
| `isSafeUrl` | `isSafe` |
| `normalizeSlug` | `normalizeSlug` |
| `Date.now()` | `nowMs` |
| the failure of `useAccessLog` | `logFails` |

## Model

| member | source | states |
|---|---|---|
| Text.Contains | server/middleware/1.redirect.ts:24 | `includes` holds iff the token occurs at some index |
| Text.SplitOn | server/utils/redirect-i18n.ts:123 | `split` gives at least one piece, no piece contains the separator, and joining the pieces with it gives back the input |
| Text.SplitAtOnly | server/utils/redirect-i18n.ts:123 | a string with exactly one occurrence of a one-character separator splits into the text before it and the text after it |
| Text.JoinKeepsParts | server/utils/template.ts:25 | every part of a `join` appears in the joined result in one piece, right after the earlier parts and separators |
| Text.JoinHoldsEveryPart | server/utils/template.ts:25 | all parts of a `join` appear in the joined result, each in one piece at its own offset |
| Text.Trim | server/utils/redirect-i18n.ts:125 | `trim` gives the slice left after removing only white space from both ends, and the result neither starts nor ends with white space |
| Text.Lower | server/middleware/1.redirect.ts:23 | `toLowerCase` keeps the length and maps every character to its lower case |
| Text.LowerIdempotent | server/middleware/1.redirect.ts:66 | lower-casing twice is lower-casing once |
| Text.ReplaceFirst | server/utils/redirect-i18n.ts:110 | `replace` with a string pattern changes only the first occurrence, and nothing when there is none |
| Links.Without | server/api/link/edit.put.ts:85 | deleting a property makes it absent and leaves every other property as it was |
| Links.OptionalFieldsListsEveryField | server/api/link/edit.put.ts:70-82 | every optional property of the record is in the deletion list |
| Links.OptionalsDetermineLink | server/api/link/edit.put.ts:63-87 | records equal on the required properties and on every listed optional property are equal |
| RedirectI18n.SupportedLocalesAreTheTableKeys | server/utils/redirect-i18n.ts:106 | the supported locales are exactly the ten keys of the translation table |
| RedirectI18n.NormalizeLocaleCode | server/utils/redirect-i18n.ts:109-117 | only the first `_` becomes `-` before canonicalisation, and a tag the runtime rejects normalises to `""` |
| RedirectI18n.ParseEntry | server/utils/redirect-i18n.ts:124-128 | an entry keeps its position in the header, which the sort uses to break ties; `ParseEntryParts` states its code and its weight in every case |
| RedirectI18n.ParseEntryParts | server/utils/redirect-i18n.ts:124-128 | its code is the normalised trimmed part before `;q=`; its weight (`Weight`) is 1.0 without `;q=`, and otherwise is read from the text between the first `;q=` and the next one or the end, 1.0 when that text is empty (so `en;q=` weighs 1.0 and `en;q=0.8;level=1` reads `0.8;level=1`) |
| RedirectI18n.PlainEntry | server/utils/redirect-i18n.ts:124-128 | an entry without `;`, `_` or surrounding white space is its normalised tag with weight 1.0 |
| RedirectI18n.WeightedEntry | server/utils/redirect-i18n.ts:124-128 | an entry `tag;q=w` is the normalised tag with the weight parsed from `w` |
| RedirectI18n.ParseEntries | server/utils/redirect-i18n.ts:123-129 | there is one candidate per comma-separated entry, in header order |
| RedirectI18n.Insert | server/utils/redirect-i18n.ts:130 | inserting an entry that comes earlier in the header than every element of an ordered list keeps the list ordered and adds exactly that entry |
| RedirectI18n.SortByWeight | server/utils/redirect-i18n.ts:130 | the sorted candidates are a permutation in descending weight, with equal weights in header order |
| RedirectI18n.OrderedPermutationUnique | server/utils/redirect-i18n.ts:130 | only one ordering of the candidates has descending weights with ties in header order, so the stable sort fixes the scan order |
| RedirectI18n.ScanOrder | server/utils/redirect-i18n.ts:123-130 | the scan order holds exactly the parsed entries, ordered by weight and then by header position |
| RedirectI18n.MatchOf | server/utils/redirect-i18n.ts:133-141 | an empty tag selects nothing; a supported tag selects itself, before its primary subtag is tried; any other tag selects its primary subtag exactly when that is non-empty and supported, and nothing otherwise |
| RedirectI18n.FirstMatch | server/utils/redirect-i18n.ts:132-144 | the scan always yields a supported locale |
| RedirectI18n.FirstMatchIsFirst | server/utils/redirect-i18n.ts:132-142 | the scan returns what the first matching candidate selects |
| RedirectI18n.FirstMatchDefault | server/utils/redirect-i18n.ts:144 | when no candidate matches, the result is `en` |
| RedirectI18n.ResolveRedirectLocale | server/utils/redirect-i18n.ts:119-145 | the result is always a supported locale, and an absent or empty header gives `en` |
| RedirectI18n.ResolvedLocaleIsTranslated | server/utils/redirect-i18n.ts:119-145 | every resolved locale has an entry in the translation table |
| RedirectI18nExamples.SingleTagScanOrder | server/utils/redirect-i18n.ts:123-130 | a header holding one plain tag the runtime keeps is scanned as that single candidate with weight 1.0 |
| RedirectI18nExamples.ResolvesSingleTag | server/utils/redirect-i18n.ts:119-145 | a header holding one plain tag resolves to what that tag selects, else `en` |
| RedirectI18nExamples.PairScanOrder | server/utils/redirect-i18n.ts:123-130 | a header `a,b;q=w` with a weight of at most 1.0 is scanned as `a` with weight 1.0, then `b` with the parsed weight |
| RedirectI18nExamples.ResolvesPair | server/utils/redirect-i18n.ts:119-145 | a header `a,b;q=w` with a weight of at most 1.0 resolves to what `a` selects, else what `b` selects, else `en` |
| RedirectI18nExamples.ResolvesWeightedHeader | server/utils/redirect-i18n.ts:119-145 | `zh-CN,en;q=0.8` resolves to `zh-CN` |
| RedirectI18nExamples.ResolvesByPrimarySubtag | server/utils/redirect-i18n.ts:139-141 | `en-US` resolves to `en` through its primary subtag |
| Template.Escape | server/utils/template.ts:2 | escaped text contains no raw `<`, `>`, `"` or `'` |
| Template.UnescapeEscape | server/utils/template.ts:2 | escaping loses nothing: reading the entities back gives the original string |
| Template.MarkupComesFromTemplate | server/utils/template.ts:30-142 | every `<`, `>`, `"` or `'` on a rendered page comes from fixed template markup, never from an interpolated value |
| Template.PreviewTitle | server/utils/template.ts:6-7 | the title is `link.title`, else the host of `link.url`, else `Link` |
| Template.ImageUrl | server/utils/template.ts:8-11 | there is an image iff `link.image` is non-empty; one starting with `/` is prefixed with the base URL, and any other is used unchanged |
| Template.NonEmpty | server/utils/template.ts:25 | `filter(Boolean)` keeps exactly the non-empty entries, each as often as it occurs |
| Template.NonEmptyAppend | server/utils/template.ts:25 | `filter(Boolean)` keeps the order: filtering a concatenation concatenates the filtered parts |
| Template.TagList | server/utils/template.ts:14-25 | the tag list holds exactly the non-empty entries of the ten candidate tags (`TagEntries`, with `[]` for an omitted tag) |
| Template.DescriptionTags | server/utils/template.ts:15-23 | the three description tags appear iff the description is non-empty, and each of them carries the escaped description |
| Template.ImageTags | server/utils/template.ts:8-24 | the `og:image` and `twitter:image` tags appear iff there is an image, and both carry the image URL; the twitter card is `summary_large_image` iff there is an image, else `summary` |
| Template.FixedTags | server/utils/template.ts:16-22 | `og:type`, the title tags and `og:url` are always present, and `og:url` is the escaped base URL, `/` and the escaped slug |
| Template.BuildMetaTags | server/utils/template.ts:5-28 | the title is the preview title, and every emitted tag reaches the joined meta markup in one piece, at its offset in the tag list; `TagEntriesValues` and `PageHeadValues` state which values the tags interpolate |
| Template.TagEntriesValues | server/utils/template.ts:14-24 | the tag array (`TagEntries`) interpolates the title, the base URL and slug of `og:url`, the description when non-empty and the image URL when there is an image, and nothing else |
| Template.PageHeadValues | server/utils/template.ts:31-38 | the page head (`PageHead`: the escaped title, then the meta tags) interpolates exactly the title, the base URL, the slug, the description when non-empty and the image URL when there is an image |
| Template.GenerateCloakingHtml | server/utils/template.ts:30-46 | every `<`, `>`, `"` or `'` in the cloaking page comes from the template, none from the link, the target or the base URL |
| Template.CloakingSegs | server/utils/template.ts:30-46 | the cloaking page loads the escaped target in the sandboxed frame and in a 0-second refresh, after the escaped title and the meta tags, and has no 1-second refresh |
| Template.PasswordSegs | server/utils/template.ts:48-80 | the password page has the error paragraph iff `hasError`, and its form action is `/` and the escaped slug |
| Template.GeneratePasswordHtml | server/utils/template.ts:48-80 | every `<`, `>`, `"` or `'` in the password page comes from the template, none from the slug |
| Template.PasswordPageValues | server/utils/template.ts:48-80 | the slug is the only value the password page interpolates |
| Template.UnsafeSegs | server/utils/template.ts:82-125 | the unsafe page shows the escaped target, posts to `/` and the escaped slug, always has the hidden `confirm=true` field and has the hidden password field iff the password is non-empty |
| Template.GenerateUnsafeWarningHtml | server/utils/template.ts:82-125 | every `<`, `>`, `"` or `'` in the warning page comes from the template, none from the slug, the target or the password |
| Template.UnsafePageValues | server/utils/template.ts:82-125 | the unsafe page interpolates the target, the slug and, when non-empty, the password, and nothing else |
| Template.OgSegs | server/utils/template.ts:127-142 | the preview page refreshes to the escaped target after 1 second and links to it, after the escaped title and the meta tags, and has no frame |
| Template.GenerateOgHtml | server/utils/template.ts:127-142 | every `<`, `>`, `"` or `'` in the preview page comes from the template, none from the link, the target or the base URL |
| RedirectMiddleware.IsSocialBot | server/middleware/1.redirect.ts:4-25 | a user agent is a bot iff its lower-cased form contains one of the fifteen tokens |
| RedirectMiddleware.SocialBotIgnoresCase | server/middleware/1.redirect.ts:22-25 | bot detection does not depend on the case of the user agent |
| RedirectMiddleware.DeviceRedirectUrl | server/middleware/1.redirect.ts:27-42 | there is a device URL iff (google is set and the agent says android) or (apple is set and the agent says iphone, ipad or ipod); google wins, and the URL is never empty |
| RedirectMiddleware.HasOgConfig | server/middleware/1.redirect.ts:44-46 | a link with neither a title nor an image has nothing to preview; `EffectPrecedence` states that bots get the preview exactly when this holds |
| RedirectMiddleware.StripSlashes | server/middleware/1.redirect.ts:49 | at most one leading and one trailing slash are removed, and nothing else changes; a leading slash is always removed, a trailing slash of a path of two or more characters is always removed, and a path with neither is unchanged |
| RedirectMiddleware.StripSlashesRoundTrip | server/middleware/1.redirect.ts:49 | a slug wrapped in slashes, or with only a leading slash, strips back to itself |
| RedirectMiddleware.PathnameOf | server/middleware/1.redirect.ts:49 | the pathname is the longest prefix without `?` or `#` |
| RedirectMiddleware.SlugOf | server/middleware/1.redirect.ts:49 | the slug is the stripped path up to its first `?` or `#`, so it holds neither, and a path with neither is only stripped |
| RedirectMiddleware.FindLink | server/middleware/1.redirect.ts:64-72 | case-sensitive lookup finds the link stored under the slug and nothing else; case-insensitive lookup finds the link under the lower-cased key when there is one, and otherwise the link under the slug as given, if any |
| RedirectMiddleware.LowerSlugFindsOnlyItsKey | server/middleware/1.redirect.ts:66-72 | in case-insensitive mode, a slug without upper-case letters finds exactly the link stored under it |
| RedirectMiddleware.MixedCaseKeyFoundAsStored | server/middleware/1.redirect.ts:66-72 | in case-insensitive mode, a link stored as `MySlug` is found for `/MySlug` by the fallback lookup |
| RedirectMiddleware.MixedCaseKeyUnreachable | server/middleware/1.redirect.ts:66-72 | a link stored as `MySlug` is not found for `/myslug` in case-insensitive mode |
| RedirectMiddleware.GateOutcome | server/middleware/1.redirect.ts:80-128 | every gate page is a password or warning page for the requested slug, sent as HTML with `Cache-Control: no-store`, the warning page naming the link's URL, and every other stop is a 403; `PasswordPostGate`, `PasswordHeaderGate`, `UnsafeGate` and `OpenLinkHasNoGate` state which gate applies when |
| RedirectMiddleware.Target | server/middleware/1.redirect.ts:139-141 | the target is the link's URL, with or without the request query merged in; `QueryMerge` states which |
| RedirectMiddleware.Effect | server/middleware/1.redirect.ts:138-163 | after the gates the response is a redirect, a preview page or a cloaking page, and a redirect goes to the target or to a store URL of the link; `EffectPrecedence` states the order |
| RedirectMiddleware.Resolve | server/middleware/1.redirect.ts:48-173 | the request passes through only when the preamble or the eligibility check stops it, and a page is sent only for a stored link |
| RedirectMiddleware.ResolveStatuses | server/middleware/1.redirect.ts:48-173 | the handler fails only with 403 or 404, and every gate page it sends is marked `no-store` |
| RedirectMiddleware.FoundStatuses | server/middleware/1.redirect.ts:86-163 | for a found link the handler fails only with 403, and its gate pages are marked `no-store` |
| RedirectMiddleware.PreambleIsTerminal | server/middleware/1.redirect.ts:54-63 | `/` with a home URL redirects there with 302; the not-found path itself passes through; an empty, reserved, pattern-failing or non-Cloudflare slug passes through with no lookup; `PassesPreamble` and `Eligible` name these two checks |
| RedirectMiddleware.MissingLink | server/middleware/1.redirect.ts:165-171 | a missing link gives a 302 to the not-found URL when one is configured, else 404 |
| RedirectMiddleware.FoundLink | server/middleware/1.redirect.ts:74-163 | a found link gets the gate's response when a gate stops the request, and the effect otherwise |
| RedirectMiddleware.PasswordPostGate | server/middleware/1.redirect.ts:90-102 | a POST to a password link: a wrong body password gives the password page with error; a right one on an unsafe link without `confirm=true` gives the warning page carrying the password; the request passes iff neither applies |
| RedirectMiddleware.PasswordHeaderGate | server/middleware/1.redirect.ts:103-114 | any other method on a password link: a wrong header password is 403, a right one on an unsafe link without `x-link-confirm: true` is 403, no header gives the password page without error, and the warning page is never shown |
| RedirectMiddleware.UnsafeGate | server/middleware/1.redirect.ts:117-128 | on an unsafe link without password, a non-POST always gets the warning page and a POST passes iff the body confirms |
| RedirectMiddleware.OpenLinkHasNoGate | server/middleware/1.redirect.ts:86-128 | a link with neither a password nor the unsafe flag passes the gates |
| RedirectMiddleware.WarningBeforeDeviceRedirect | server/middleware/1.redirect.ts:117-146 | an unsafe link without password shows its warning page to a GET whatever the device |
| RedirectMiddleware.EffectPrecedence | server/middleware/1.redirect.ts:143-163 | the device URL comes first, with the configured status and no query merge; the preview page comes next, iff the agent is a bot and the link has a title or image, with only `Content-Type` set; the cloaking page comes next, with `Cache-Control: no-store, private`; the plain redirect comes last |
| RedirectMiddleware.QueryMerge | server/middleware/1.redirect.ts:140-141 | the link's own `redirectWithQuery` decides the query merge, and the configured default applies only when the link has none |
| RedirectMiddleware.GetLocale | server/middleware/1.redirect.ts:75-79 | the memoised locale is the resolved locale, and it is resolved only when not yet memoised |
| RedirectMiddleware.LookUp | server/middleware/1.redirect.ts:64-72 | one or two lookups; the first uses the slug (case-sensitive) or its lower case; the second happens iff case-insensitive, the first missed and the lower case differs, and it uses the slug as given |
| RedirectMiddleware.RunGates | server/middleware/1.redirect.ts:86-128 | the gates compute `GateOutcome`; the body is read at most once and only for a POST; the locale is resolved once iff a page is served |
| RedirectMiddleware.Apply | server/middleware/1.redirect.ts:138-163 | the effect branch computes `Effect` with the headers each branch sets |
| RedirectMiddleware.Serve | server/middleware/1.redirect.ts:74-163 | for a found link, the response is the gate's when a gate stops the request and the effect otherwise; the body is read at most once and only for a POST; the locale is resolved once iff a gate page is served; the access log is written iff every gate passed |
| RedirectMiddleware.Handle | server/middleware/1.redirect.ts:48-173 | the handler's response is `Resolve` whether or not the access log fails; a lookup happens iff the preamble and the eligibility check pass; there are at most two lookups, the second only after a miss on a differing lower-cased key; the body is read at most once; the locale is resolved once iff a gate page is served; the access log is written iff a link was found and every gate passed |
| LinkApi.AutoFlag | server/api/link/edit.put.ts:55-61 | an explicit `unsafe` is kept; an undefined one becomes true iff the check is due and fails, and otherwise stays undefined; the check never yields false |
| LinkApi.Spread | server/api/link/edit.put.ts:63-65 | an object spread takes each optional property from the submission when present and from the stored record otherwise |
| LinkApi.MergeForEdit | server/api/link/edit.put.ts:63-87 | the merged record keeps the stored `id` and `createdAt`, has `updatedAt` = floor(now/1000), has the submitted URL and slug, and every optional property equals the submission's, absent when not submitted |
| LinkApi.EditMergeIsUnique | server/api/link/edit.put.ts:63-87 | the merge's postcondition fixes every property, so only one record meets it |
| LinkApi.LinkStore.Edit | server/api/link/edit.put.ts:37-92 | preview mode is 403 and an unknown slug 404, both leaving the store unchanged and making no safety check; otherwise the merged record, with `unsafe` auto-flagged only when undefined and the URL changed, is stored under its slug and returned with 201; every record stays under its own slug |
| LinkApi.LinkStore.Upsert | server/api/link/upsert.post.ts:33-56 | the slug is normalised before lookup and storage; an existing link is returned as `existing` with the store unchanged; otherwise the submission, with `unsafe` auto-flagged, is stored and returned as `created` with 201; no other slug's entry changes; the safety check runs iff `unsafe` is undefined; while every record is stored under its own slug, the returned link carries the normalised slug |

## Left out

- I/O and framework plumbing are modelled as values. This covers `readBody`, `getHeader`, `setHeader`, `sendRedirect`, `createError`, `getLink` and `putLink`, and the async structure. The handler's response is a `Response` value, headers are a map, and the store is a map.
- `Text.Lower`: models `toLowerCase` on the ASCII letters only. Full Unicode case mapping is not modelled, so slugs and user agents with non-ASCII capitals fold differently.
- `RedirectI18n.Weight`: weights are integers in thousandths. Weights that `parseFloat` turns into `NaN` are not modelled, and neither is how `sort` behaves with a comparator that returns `NaN`.
- `Intl.getCanonicalLocales`, `parseURL`, `withQuery`, `getQuery`, the slug regex, `normalizeSlug` and `isSafeUrl` are parameters with no further properties. The model assumes nothing about what they compute.
- `buildShortLink`, and the `shortLink` it adds to the edit and upsert responses, are not part of this model.
- The `linkCacheTtl` argument of `getLink` is not modelled: the store is read directly.
- `useAccessLog` is not modelled beyond whether it is called and whether it throws.
- `LinkSchema.parse` (defaults, validation, unknown-key stripping) is not modelled. The record it produces is taken as given.
- `+redirectStatusCode` is taken as an already-converted integer.
- CSS, SVG and other fixed text of the pages is abridged: styles and icons are empty. Only the markup around the interpolated values is kept.
- Body fields that are missing or not strings are both `None`. Neither is ever strictly equal to a string, so the gates treat them alike.
- `RedirectMiddleware.Handle` describes the pages abstractly (`PasswordPage`, `UnsafePage`, `PreviewPage`, `CloakingPage`) and does not render them with `Template`. The middleware passes the templates an options object carrying a locale (1.redirect.ts:95, 100, 113, 122, 126). The templates take positional arguments and no locale (template.ts:48, 82). `Template` models the templates on their own signatures.
- The translation table is modelled and proved complete, but no page uses it, as in the source.
- The backup job, its scheduled hook and the DNS-over-HTTPS safety client are outside this model.

## Notes on the source

- In the handler, the store redirect is decided only after the password and unsafe gates (1.redirect.ts:143). So an unsafe link shows its warning page even to a device that would get an app-store redirect (`RedirectMiddleware.WarningBeforeDeviceRedirect`).
- With case-insensitive lookups, a link stored under a mixed-case key is reachable only through that exact spelling. For example, `/MySlug` finds a link stored as `MySlug` (`RedirectMiddleware.MixedCaseKeyFoundAsStored`), but `/myslug` does not (`RedirectMiddleware.MixedCaseKeyUnreachable`). The fallback to the original spelling runs only when the lower-cased slug differs from the one requested.
- The cloaking frame's sandbox allows scripts (template.ts:42). The 0-second refresh applies only when scripts are disabled in the browser.
