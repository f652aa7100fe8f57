/** The HTML pages the redirect serves. A page is a list of segments: fixed
    markup of the template (`Lit`) and interpolated values (`Esc`), which are
    always HTML-escaped. Fixed markup is an enumeration, so no stored or
    request-derived string can reach a page except through `Escape`. The
    pages' CSS and SVG are not reproduced. */
module Template {
  import opened Wrappers
  import opened Text
  import opened Links

  // ----- escaping -----

  /** The characters that are significant in HTML text and attribute values. */
  predicate IsSpecial(c: char) {
    c == '<' || c == '>' || c == '"' || c == '\''
  }

  function EscapeChar(c: char): string {
    if c == '&' then "&amp;"
    else if c == '<' then "&lt;"
    else if c == '>' then "&gt;"
    else if c == '"' then "&quot;"
    else if c == '\'' then "&#39;"
    else [c]
  }

  /** `escape` of es-toolkit: `& < > " '` become entity references. */
  function Escape(s: string): (r: string)
    ensures forall i :: 0 <= i < |r| ==> !IsSpecial(r[i])
    ensures |r| >= |s|
  {
    if s == [] then [] else EscapeChar(s[0]) + Escape(s[1..])
  }

  /** Reads the five entity references back. */
  function Unescape(s: string): string
    decreases |s|
  {
    if s == [] then []
    else if StartsWith(s, "&amp;") then "&" + Unescape(s[5..])
    else if StartsWith(s, "&lt;") then "<" + Unescape(s[4..])
    else if StartsWith(s, "&gt;") then ">" + Unescape(s[4..])
    else if StartsWith(s, "&quot;") then "\"" + Unescape(s[6..])
    else if StartsWith(s, "&#39;") then "'" + Unescape(s[5..])
    else [s[0]] + Unescape(s[1..])
  }

  lemma DiffersAt(x: string, p: string, i: nat)
    requires i < |p| && i < |x| && x[i] != p[i]
    ensures !StartsWith(x, p)
  {
  }

  /** Escaping loses nothing: the page shows exactly the stored value. */
  lemma {:induction false} UnescapeEscape(s: string)
    ensures Unescape(Escape(s)) == s
  {
    if s != [] {
      var e := EscapeChar(s[0]);
      var rest := Escape(s[1..]);
      assert Escape(s) == e + rest;
      UnescapeEscape(s[1..]);
      var c := s[0];
      var x := e + rest;
      if c == '&' {
        assert x[..5] == "&amp;" && x[5..] == rest;
      } else if c == '<' {
        assert x[..4] == "&lt;" && x[4..] == rest;
        DiffersAt(x, "&amp;", 1);
      } else if c == '>' {
        assert x[..4] == "&gt;" && x[4..] == rest;
        DiffersAt(x, "&amp;", 1);
        DiffersAt(x, "&lt;", 1);
      } else if c == '"' {
        assert x[..6] == "&quot;" && x[6..] == rest;
        DiffersAt(x, "&amp;", 1);
        DiffersAt(x, "&lt;", 1);
        DiffersAt(x, "&gt;", 1);
      } else if c == '\'' {
        assert x[..5] == "&#39;" && x[5..] == rest;
        DiffersAt(x, "&amp;", 1);
        DiffersAt(x, "&lt;", 1);
        DiffersAt(x, "&gt;", 1);
        DiffersAt(x, "&quot;", 1);
      } else {
        assert x[0] == c && x[1..] == rest;
        DiffersAt(x, "&amp;", 0);
        DiffersAt(x, "&lt;", 0);
        DiffersAt(x, "&gt;", 0);
        DiffersAt(x, "&quot;", 0);
        DiffersAt(x, "&#39;", 0);
      }
    }
  }

  // ----- segments -----

  /** The fixed markup of the templates. */
  datatype Frag =
    | AttrClose | Slash | TagSeparator
    | MetaDescription | OgType | OgUrl | OgTitle | OgDescription | OgImage
    | TwitterCardLarge | TwitterCardSummary | TwitterTitle | TwitterDescription | TwitterImage
    | DocHead | TitleClose
    | CloakFrameOpen | CloakFrameClose | CloakTail
    | OgRefreshOpen | OgBodyOpen | OgTail
    | FormAction
    | PasswordHead | PasswordError | PasswordFormOpen | PasswordTail
    | UnsafeHead | UnsafeFormOpen | UnsafeConfirmField | UnsafePasswordField | UnsafeTail

  function FragText(f: Frag): string {
    match f
    case AttrClose => "\">"
    case Slash => "/"
    case TagSeparator => "\n    "
    case MetaDescription => "<meta name=\"description\" content=\""
    case OgType => "<meta property=\"og:type\" content=\"website\">"
    case OgUrl => "<meta property=\"og:url\" content=\""
    case OgTitle => "<meta property=\"og:title\" content=\""
    case OgDescription => "<meta property=\"og:description\" content=\""
    case OgImage => "<meta property=\"og:image\" content=\""
    case TwitterCardLarge => "<meta name=\"twitter:card\" content=\"summary_large_image\">"
    case TwitterCardSummary => "<meta name=\"twitter:card\" content=\"summary\">"
    case TwitterTitle => "<meta name=\"twitter:title\" content=\""
    case TwitterDescription => "<meta name=\"twitter:description\" content=\""
    case TwitterImage => "<meta name=\"twitter:image\" content=\""
    case DocHead => "<!DOCTYPE html>\n<html>\n<head>\n    <meta charset=\"utf-8\">\n    <title>"
    case TitleClose => "</title>\n    "
    case CloakFrameOpen => "\n    <style></style>\n</head>\n<body>\n    <iframe src=\""
    case CloakFrameClose => "\" sandbox=\"allow-scripts allow-same-origin allow-forms allow-popups allow-popups-to-escape-sandbox\" allowfullscreen referrerpolicy=\"no-referrer\"></iframe>\n    <noscript><meta http-equiv=\"refresh\" content=\"0;url="
    case CloakTail => "\"></noscript>\n</body>\n</html>"
    case OgRefreshOpen => "\n    <meta http-equiv=\"refresh\" content=\"1;url="
    case OgBodyOpen => "\">\n</head>\n<body>\n    <p>Redirecting to <a href=\""
    case OgTail => "</a>...</p>\n</body>\n</html>"
    case PasswordHead => "<!DOCTYPE html>\n<html>\n<head>\n    <meta charset=\"utf-8\">\n    <meta name=\"viewport\" content=\"width=device-width,initial-scale=1\">\n    <meta name=\"robots\" content=\"noindex\">\n    <title>Password Required</title>\n    <style></style>\n</head>\n<body>\n    <div class=\"card\">\n        <h1>Password Required</h1>"
    case PasswordError => "\n        <p class=\"error\">Incorrect password</p>"
    case FormAction => "action=\"/"
    case PasswordFormOpen => "\n        <form method=\"POST\" "
    case PasswordTail => "\">\n            <label for=\"password\">Password</label>\n            <input type=\"password\" id=\"password\" name=\"password\" required autofocus placeholder=\"Enter password\">\n            <button type=\"submit\">Continue</button>\n        </form>\n    </div>\n</body>\n</html>"
    case UnsafeHead => "<!DOCTYPE html>\n<html>\n<head>\n    <meta charset=\"utf-8\">\n    <meta name=\"viewport\" content=\"width=device-width,initial-scale=1\">\n    <meta name=\"robots\" content=\"noindex\">\n    <title>Warning: Potentially Unsafe Link</title>\n    <style></style>\n</head>\n<body>\n    <div class=\"card\">\n        <div class=\"warning\">\n            <svg></svg>\n            <h1>Potentially Unsafe Link</h1>\n        </div>\n        <p class=\"desc\">This link has been flagged as potentially unsafe. Proceed with caution.</p>\n        <div class=\"url\">"
    case UnsafeFormOpen => "</div>\n        <div class=\"actions\">\n            <a href=\"javascript:history.back()\" class=\"btn btn-back\">Go Back</a>\n            <form method=\"POST\" "
    case UnsafeConfirmField => "\" style=\"flex:1;display:flex\">\n                <input type=\"hidden\" name=\"confirm\" value=\"true\">"
    case UnsafePasswordField => "\n                <input type=\"hidden\" name=\"password\" value=\""
    case UnsafeTail => "\n                <button type=\"submit\" class=\"btn btn-continue\" style=\"width:100%\">Continue</button>\n            </form>\n        </div>\n    </div>\n</body>\n</html>"
  }

  datatype Seg = Lit(frag: Frag) | Esc(value: string)

  function SegText(s: Seg): string {
    match s
    case Lit(f) => FragText(f)
    case Esc(v) => Escape(v)
  }

  /** The page text. */
  function Render(segs: seq<Seg>): string {
    if segs == [] then [] else SegText(segs[0]) + Render(segs[1..])
  }

  /** For each character of the page, whether it comes from fixed markup. */
  function Origin(segs: seq<Seg>): seq<bool> {
    if segs == [] then []
    else seq(|SegText(segs[0])|, _ => segs[0].Lit?) + Origin(segs[1..])
  }

  /** Every `<`, `>`, `"` and `'` on a page belongs to the template's own
      markup: no interpolated value can open or close a tag or an attribute. */
  lemma {:induction false} MarkupComesFromTemplate(segs: seq<Seg>)
    ensures |Origin(segs)| == |Render(segs)|
    ensures forall k :: 0 <= k < |Render(segs)| && IsSpecial(Render(segs)[k]) ==> Origin(segs)[k]
  {
    if segs != [] {
      MarkupComesFromTemplate(segs[1..]);
      var t := SegText(segs[0]);
      var r := Render(segs[1..]);
      var o := seq(|t|, _ => segs[0].Lit?);
      assert Origin(segs) == o + Origin(segs[1..]);
      forall k | 0 <= k < |t + r| && IsSpecial((t + r)[k]) ensures Origin(segs)[k] {
        if k < |t| {
          assert (t + r)[k] == t[k];
          SpecialMeansLit(segs[0], k);
          assert Origin(segs)[k] == o[k];
        } else {
          assert (t + r)[k] == r[k - |t|];
          assert Origin(segs)[k] == Origin(segs[1..])[k - |t|];
        }
      }
    }
  }

  /** A special character of one segment's text comes from fixed markup. */
  lemma SpecialMeansLit(s: Seg, k: int)
    requires 0 <= k < |SegText(s)| && IsSpecial(SegText(s)[k])
    ensures s.Lit?
  {
  }

  /** `b` immediately follows `a` somewhere in `segs`. */
  predicate Adjacent(segs: seq<Seg>, a: Seg, b: Seg) {
    exists i :: 0 <= i < |segs| - 1 && segs[i] == a && segs[i + 1] == b
  }

  // ----- meta tags -----

  /** `buildMetaTags`'s result. */
  datatype MetaTags = MetaTags(title: string, tags: seq<Seg>)

  /** The preview title: the link's title, else the host of its URL, else `Link`. */
  function PreviewTitle(link: Link, host: string): (t: string)
    ensures t != ""
    ensures Truthy(link.title) ==> t == link.title.value
    ensures !Truthy(link.title) && host != "" ==> t == host
    ensures !Truthy(link.title) && host == "" ==> t == "Link"
  {
    if Truthy(link.title) then link.title.value else if host != "" then host else "Link"
  }

  /** The preview image: one given as a path starting with `/` is resolved
      against `baseUrl`; any other is used as given. */
  function ImageUrl(link: Link, baseUrl: string): (r: Option<string>)
    ensures r.Some? <==> Truthy(link.image)
    ensures Truthy(link.image) && StartsWith(link.image.value, "/") ==> r == Some(baseUrl + link.image.value)
    ensures Truthy(link.image) && !StartsWith(link.image.value, "/") ==> r == link.image
  {
    if !Truthy(link.image) then None
    else if StartsWith(link.image.value, "/") then Some(baseUrl + link.image.value)
    else link.image
  }

  function ContentTag(f: Frag, value: string): seq<Seg> {
    [Lit(f), Esc(value), Lit(AttrClose)]
  }

  function OptionalTag(present: bool, f: Frag, value: string): seq<Seg> {
    if present then ContentTag(f, value) else []
  }

  /** The ten entries of the tag array, `[]` standing for an omitted (`''`) one. */
  function TagEntries(link: Link, baseUrl: string, host: string): seq<seq<Seg>> {
    var title := PreviewTitle(link, host);
    var desc := Truthy(link.description);
    var d := link.description.GetOr("");
    var image := ImageUrl(link, baseUrl);
    [ OptionalTag(desc, MetaDescription, d),
      [Lit(OgType)],
      [Lit(OgUrl), Esc(baseUrl), Lit(Slash), Esc(link.slug), Lit(AttrClose)],
      ContentTag(OgTitle, title),
      OptionalTag(desc, OgDescription, d),
      OptionalTag(image.Some?, OgImage, image.GetOr("")),
      [Lit(if image.Some? then TwitterCardLarge else TwitterCardSummary)],
      ContentTag(TwitterTitle, title),
      OptionalTag(desc, TwitterDescription, d),
      OptionalTag(image.Some?, TwitterImage, image.GetOr("")) ]
  }

  /** `filter(Boolean)`: the entries that are not empty, in order. */
  function NonEmpty(entries: seq<seq<Seg>>): (r: seq<seq<Seg>>)
    ensures forall e :: e in r <==> e in entries && e != []
    ensures forall e :: e != [] ==> multiset(r)[e] == multiset(entries)[e]
    ensures |r| <= |entries|
  {
    if entries == [] then []
    else
      assert entries == [entries[0]] + entries[1..];
      if entries[0] == [] then NonEmpty(entries[1..])
      else [entries[0]] + NonEmpty(entries[1..])
  }

  /** `filter` keeps order: filtering a concatenation concatenates the filtered parts. */
  lemma {:induction false} NonEmptyAppend(a: seq<seq<Seg>>, b: seq<seq<Seg>>)
    ensures NonEmpty(a + b) == NonEmpty(a) + NonEmpty(b)
    decreases |a|
  {
    if a != [] {
      assert (a + b)[0] == a[0] && (a + b)[1..] == a[1..] + b;
      NonEmptyAppend(a[1..], b);
    } else {
      assert a + b == b;
    }
  }

  /** Some tag in `tags` starts with the fixed markup `f`. */
  predicate HasTag(tags: seq<seq<Seg>>, f: Frag) {
    exists e :: e in tags && e != [] && e[0] == Lit(f)
  }

  /** The tags that are emitted, before they are joined. */
  function TagList(link: Link, baseUrl: string, host: string): (r: seq<seq<Seg>>)
    ensures forall e :: e in r <==> e in TagEntries(link, baseUrl, host) && e != []
  {
    NonEmpty(TagEntries(link, baseUrl, host))
  }

  /** The three description tags are emitted iff the link has a non-empty description. */
  lemma DescriptionTags(link: Link, baseUrl: string, host: string)
    ensures HasTag(TagList(link, baseUrl, host), MetaDescription) <==> Truthy(link.description)
    ensures HasTag(TagList(link, baseUrl, host), OgDescription) <==> Truthy(link.description)
    ensures HasTag(TagList(link, baseUrl, host), TwitterDescription) <==> Truthy(link.description)
    ensures Truthy(link.description) ==>
              && ContentTag(MetaDescription, link.description.value) in TagList(link, baseUrl, host)
              && ContentTag(OgDescription, link.description.value) in TagList(link, baseUrl, host)
              && ContentTag(TwitterDescription, link.description.value) in TagList(link, baseUrl, host)
  {
    var entries := TagEntries(link, baseUrl, host);
    var d := link.description.GetOr("");
    if Truthy(link.description) {
      assert ContentTag(MetaDescription, d) in entries;
      assert ContentTag(OgDescription, d) in entries;
      assert ContentTag(TwitterDescription, d) in entries;
    }
    TagHeads(link, baseUrl, host);
  }

  /** The image tags are emitted iff the link has an image, and the twitter
      card is `summary_large_image` exactly then, `summary` otherwise. */
  lemma ImageTags(link: Link, baseUrl: string, host: string)
    ensures HasTag(TagList(link, baseUrl, host), OgImage) <==> Truthy(link.image)
    ensures HasTag(TagList(link, baseUrl, host), TwitterImage) <==> Truthy(link.image)
    ensures HasTag(TagList(link, baseUrl, host), TwitterCardLarge) <==> Truthy(link.image)
    ensures HasTag(TagList(link, baseUrl, host), TwitterCardSummary) <==> !Truthy(link.image)
    ensures Truthy(link.image) ==>
              && ContentTag(OgImage, ImageUrl(link, baseUrl).value) in TagList(link, baseUrl, host)
              && ContentTag(TwitterImage, ImageUrl(link, baseUrl).value) in TagList(link, baseUrl, host)
  {
    var entries := TagEntries(link, baseUrl, host);
    var image := ImageUrl(link, baseUrl);
    if Truthy(link.image) {
      assert ContentTag(OgImage, image.value) in entries;
      assert ContentTag(TwitterImage, image.value) in entries;
      assert [Lit(TwitterCardLarge)] in entries;
    } else {
      assert [Lit(TwitterCardSummary)] in entries;
    }
    TagHeads(link, baseUrl, host);
  }

  /** Which fixed markup each emitted tag starts with. */
  lemma TagHeads(link: Link, baseUrl: string, host: string)
    ensures forall e :: e in TagList(link, baseUrl, host) ==>
      (e[0] == Lit(OgImage) || e[0] == Lit(TwitterImage) || e[0] == Lit(TwitterCardLarge) ==> Truthy(link.image))
      && (e[0] == Lit(TwitterCardSummary) ==> !Truthy(link.image))
      && (e[0] == Lit(MetaDescription) || e[0] == Lit(OgDescription) || e[0] == Lit(TwitterDescription)
          ==> Truthy(link.description))
  {
    var entries := TagEntries(link, baseUrl, host);
    forall e | e in entries && e != []
      ensures (e[0] == Lit(OgImage) || e[0] == Lit(TwitterImage) || e[0] == Lit(TwitterCardLarge) ==> Truthy(link.image))
      && (e[0] == Lit(TwitterCardSummary) ==> !Truthy(link.image))
      && (e[0] == Lit(MetaDescription) || e[0] == Lit(OgDescription) || e[0] == Lit(TwitterDescription)
          ==> Truthy(link.description))
    {
      var i :| 0 <= i < |entries| && entries[i] == e;
    }
  }

  /** The type, URL and title tags are always emitted; `og:url` is the
      escaped base URL, `/` and the escaped slug. */
  lemma FixedTags(link: Link, baseUrl: string, host: string)
    ensures HasTag(TagList(link, baseUrl, host), OgType)
    ensures [Lit(OgUrl), Esc(baseUrl), Lit(Slash), Esc(link.slug), Lit(AttrClose)] in TagList(link, baseUrl, host)
    ensures ContentTag(OgTitle, PreviewTitle(link, host)) in TagList(link, baseUrl, host)
    ensures ContentTag(TwitterTitle, PreviewTitle(link, host)) in TagList(link, baseUrl, host)
  {
    var entries := TagEntries(link, baseUrl, host);
    assert [Lit(OgType)] in entries;
    assert [Lit(OgUrl), Esc(baseUrl), Lit(Slash), Esc(link.slug), Lit(AttrClose)] in entries;
    assert ContentTag(OgTitle, PreviewTitle(link, host)) in entries;
    assert ContentTag(TwitterTitle, PreviewTitle(link, host)) in entries;
  }

  /** `buildMetaTags`: the preview title, and the emitted tags joined by a
      line break, each of them reaching the markup in one piece. */
  function BuildMetaTags(link: Link, baseUrl: string, host: string): (m: MetaTags)
    ensures m.title == PreviewTitle(link, host)
    ensures forall i :: 0 <= i < |TagList(link, baseUrl, host)| ==>
              SliceAt(m.tags, TagList(link, baseUrl, host)[i], JoinOffset(TagList(link, baseUrl, host), [Lit(TagSeparator)], i))
  {
    var tags := Join(TagList(link, baseUrl, host), [Lit(TagSeparator)]);
    JoinHoldsEveryPart(TagList(link, baseUrl, host), [Lit(TagSeparator)]);
    MetaTags(PreviewTitle(link, host), tags)
  }

  // ----- pages -----

  /** The values a page interpolates, each passed through `Escape`. */
  function Interpolated(segs: seq<Seg>): set<string> {
    set i | 0 <= i < |segs| && segs[i].Esc? :: segs[i].value
  }

  lemma InterpolatedAppend(a: seq<Seg>, b: seq<Seg>)
    ensures Interpolated(a + b) == Interpolated(a) + Interpolated(b)
  {
    forall v | v in Interpolated(a + b) ensures v in Interpolated(a) + Interpolated(b) {
      var i :| 0 <= i < |a + b| && (a + b)[i].Esc? && (a + b)[i].value == v;
      if i < |a| { assert (a + b)[i] == a[i]; } else { assert (a + b)[i] == b[i - |a|]; }
    }
    forall v | v in Interpolated(a) ensures v in Interpolated(a + b) {
      var i :| 0 <= i < |a| && a[i].Esc? && a[i].value == v;
      assert (a + b)[i] == a[i];
    }
    forall v | v in Interpolated(b) ensures v in Interpolated(a + b) {
      var i :| 0 <= i < |b| && b[i].Esc? && b[i].value == v;
      assert (a + b)[|a| + i] == b[i];
    }
  }

  /** The values a list of segment lists interpolates. */
  function InterpolatedAll(parts: seq<seq<Seg>>): set<string> {
    if parts == [] then {} else Interpolated(parts[0]) + InterpolatedAll(parts[1..])
  }

  lemma InterpolatedAllCons(x: seq<Seg>, rest: seq<seq<Seg>>)
    ensures InterpolatedAll([x] + rest) == Interpolated(x) + InterpolatedAll(rest)
  {
    assert ([x] + rest)[1..] == rest;
  }

  /** Joining with fixed markup interpolates exactly what the parts do. */
  lemma {:induction false} JoinValues(parts: seq<seq<Seg>>, f: Frag)
    ensures Interpolated(Join(parts, [Lit(f)])) == InterpolatedAll(parts)
    decreases |parts|
  {
    if |parts| == 1 {
      assert parts == [parts[0]] + [];
      InterpolatedAllCons(parts[0], []);
    } else if |parts| > 1 {
      JoinValues(parts[1..], f);
      InterpolatedAppend(parts[0], [Lit(f)]);
      InterpolatedAppend(parts[0] + [Lit(f)], Join(parts[1..], [Lit(f)]));
      assert Interpolated([Lit(f)]) == {};
      assert parts == [parts[0]] + parts[1..];
      InterpolatedAllCons(parts[0], parts[1..]);
    } else {
      assert Join(parts, [Lit(f)]) == [];
    }
  }

  /** Dropping the omitted entries loses no value. */
  lemma {:induction false} NonEmptyValues(entries: seq<seq<Seg>>)
    ensures InterpolatedAll(NonEmpty(entries)) == InterpolatedAll(entries)
    decreases |entries|
  {
    if entries != [] {
      NonEmptyValues(entries[1..]);
      if entries[0] == [] {
        assert Interpolated([]) == {};
      } else {
        InterpolatedAllCons(entries[0], NonEmpty(entries[1..]));
      }
    }
  }

  lemma ContentTagValue(f: Frag, v: string)
    ensures Interpolated(ContentTag(f, v)) == {v}
  {
    var t := ContentTag(f, v);
    assert t[1].Esc? && t[1].value == v;
  }

  lemma OptionalTagValue(present: bool, f: Frag, v: string)
    ensures Interpolated(OptionalTag(present, f, v)) == if present then {v} else {}
  {
    if present { ContentTagValue(f, v); }
  }

  lemma InterpolatedAllTen(x0: seq<Seg>, x1: seq<Seg>, x2: seq<Seg>, x3: seq<Seg>, x4: seq<Seg>,
                           x5: seq<Seg>, x6: seq<Seg>, x7: seq<Seg>, x8: seq<Seg>, x9: seq<Seg>)
    ensures InterpolatedAll([x0, x1, x2, x3, x4, x5, x6, x7, x8, x9]) ==
              Interpolated(x0) + Interpolated(x1) + Interpolated(x2) + Interpolated(x3) + Interpolated(x4)
              + Interpolated(x5) + Interpolated(x6) + Interpolated(x7) + Interpolated(x8) + Interpolated(x9)
  {
    InterpolatedAllCons(x9, []);
    InterpolatedAllCons(x8, [x9]);
    InterpolatedAllCons(x7, [x8, x9]);
    InterpolatedAllCons(x6, [x7, x8, x9]);
    InterpolatedAllCons(x5, [x6, x7, x8, x9]);
    InterpolatedAllCons(x4, [x5, x6, x7, x8, x9]);
    InterpolatedAllCons(x3, [x4, x5, x6, x7, x8, x9]);
    InterpolatedAllCons(x2, [x3, x4, x5, x6, x7, x8, x9]);
    InterpolatedAllCons(x1, [x2, x3, x4, x5, x6, x7, x8, x9]);
    InterpolatedAllCons(x0, [x1, x2, x3, x4, x5, x6, x7, x8, x9]);
    assert [x9] == [x9] + [];
    assert InterpolatedAll([]) == {};
  }

  /** The values the ten tag entries interpolate. */
  lemma TagEntriesValues(link: Link, baseUrl: string, host: string)
    ensures InterpolatedAll(TagEntries(link, baseUrl, host)) ==
              {PreviewTitle(link, host), baseUrl, link.slug}
              + (if Truthy(link.description) then {link.description.value} else {})
              + (if Truthy(link.image) then {ImageUrl(link, baseUrl).value} else {})
  {
    var title := PreviewTitle(link, host);
    var desc := Truthy(link.description);
    var d := link.description.GetOr("");
    var image := ImageUrl(link, baseUrl);
    var e0 := OptionalTag(desc, MetaDescription, d);
    var e1: seq<Seg> := [Lit(OgType)];
    var e2 := [Lit(OgUrl), Esc(baseUrl), Lit(Slash), Esc(link.slug), Lit(AttrClose)];
    var e3 := ContentTag(OgTitle, title);
    var e4 := OptionalTag(desc, OgDescription, d);
    var e5 := OptionalTag(image.Some?, OgImage, image.GetOr(""));
    var e6: seq<Seg> := [Lit(if image.Some? then TwitterCardLarge else TwitterCardSummary)];
    var e7 := ContentTag(TwitterTitle, title);
    var e8 := OptionalTag(desc, TwitterDescription, d);
    var e9 := OptionalTag(image.Some?, TwitterImage, image.GetOr(""));
    InterpolatedAllTen(e0, e1, e2, e3, e4, e5, e6, e7, e8, e9);
    OptionalTagValue(desc, MetaDescription, d);
    OptionalTagValue(desc, OgDescription, d);
    OptionalTagValue(desc, TwitterDescription, d);
    OptionalTagValue(image.Some?, OgImage, image.GetOr(""));
    OptionalTagValue(image.Some?, TwitterImage, image.GetOr(""));
    ContentTagValue(OgTitle, title);
    ContentTagValue(TwitterTitle, title);
    assert Interpolated(e1) == {} && Interpolated(e6) == {};
    assert e2[1].Esc? && e2[3].Esc?;
    assert Interpolated(e2) == {baseUrl, link.slug};
    UnionOfTagValues(Interpolated(e0), Interpolated(e1), Interpolated(e2), Interpolated(e3), Interpolated(e4),
                     Interpolated(e5), Interpolated(e6), Interpolated(e7), Interpolated(e8), Interpolated(e9),
                     {title, baseUrl, link.slug}, {title},
                     if desc then {d} else {}, if image.Some? then {image.GetOr("")} else {});
  }

  lemma UnionOfTagValues(s0: set<string>, s1: set<string>, s2: set<string>, s3: set<string>, s4: set<string>,
                         s5: set<string>, s6: set<string>, s7: set<string>, s8: set<string>, s9: set<string>,
                         fixed: set<string>, title: set<string>, desc: set<string>, image: set<string>)
    requires s1 == {} && s6 == {} && s3 == title && s7 == title && title + s2 == fixed
    requires s0 == desc && s4 == desc && s8 == desc && s5 == image && s9 == image
    ensures s0 + s1 + s2 + s3 + s4 + s5 + s6 + s7 + s8 + s9 == fixed + desc + image
  {
  }

  /** The head the preview and cloaking pages share: the escaped title,
      then the meta tags. */
  function PageHead(link: Link, baseUrl: string, host: string): (r: seq<Seg>)
    ensures |r| >= 3 && r[0] == Lit(DocHead) && r[1] == Esc(PreviewTitle(link, host)) && r[2] == Lit(TitleClose)
    ensures r[3..] == BuildMetaTags(link, baseUrl, host).tags
  {
    var m := BuildMetaTags(link, baseUrl, host);
    [Lit(DocHead), Esc(m.title), Lit(TitleClose)] + m.tags
  }

  /** The head interpolates the preview title, the base URL and slug of
      `og:url`, the description when there is one and the image URL when
      there is one, and nothing else. */
  lemma PageHeadValues(link: Link, baseUrl: string, host: string)
    ensures Interpolated(PageHead(link, baseUrl, host)) ==
              {PreviewTitle(link, host), baseUrl, link.slug}
              + (if Truthy(link.description) then {link.description.value} else {})
              + (if Truthy(link.image) then {ImageUrl(link, baseUrl).value} else {})
  {
    var m := BuildMetaTags(link, baseUrl, host);
    var top := [Lit(DocHead), Esc(m.title), Lit(TitleClose)];
    InterpolatedAppend(top, m.tags);
    assert top[1].Esc?;
    assert Interpolated(top) == {m.title};
    JoinValues(TagList(link, baseUrl, host), TagSeparator);
    NonEmptyValues(TagEntries(link, baseUrl, host));
    TagEntriesValues(link, baseUrl, host);
  }

  /** `generateCloakingHtml`: after the head, the target loads in a sandboxed
      frame, and without scripts a refresh after 0 seconds goes to it; there
      is no 1-second refresh. */
  function CloakingSegs(link: Link, targetUrl: string, baseUrl: string, host: string): (r: seq<Seg>)
    ensures |r| > |PageHead(link, baseUrl, host)|
    ensures r[..|PageHead(link, baseUrl, host)|] == PageHead(link, baseUrl, host)
    ensures Adjacent(r, Lit(CloakFrameOpen), Esc(targetUrl))
    ensures Adjacent(r, Lit(CloakFrameClose), Esc(targetUrl))
    ensures Lit(OgRefreshOpen) !in r[|PageHead(link, baseUrl, host)|..]
  {
    var head := PageHead(link, baseUrl, host);
    var body := [Lit(CloakFrameOpen), Esc(targetUrl), Lit(CloakFrameClose), Esc(targetUrl), Lit(CloakTail)];
    var r := head + body;
    assert r[..|head|] == head && r[|head|..] == body;
    assert r[|head|] == Lit(CloakFrameOpen) && r[|head| + 1] == Esc(targetUrl);
    assert r[|head| + 2] == Lit(CloakFrameClose) && r[|head| + 3] == Esc(targetUrl);
    r
  }

  /** The rendered page; every markup-special character in it comes from the
      template, none from an interpolated value. */
  function GenerateCloakingHtml(link: Link, targetUrl: string, baseUrl: string, host: string): (html: string)
    ensures |html| == |Origin(CloakingSegs(link, targetUrl, baseUrl, host))|
    ensures forall k :: 0 <= k < |html| && IsSpecial(html[k]) ==> Origin(CloakingSegs(link, targetUrl, baseUrl, host))[k]
  {
    var segs := CloakingSegs(link, targetUrl, baseUrl, host);
    MarkupComesFromTemplate(segs);
    Render(segs)
  }

  /** `generateOgHtml`: after the head, the preview page refreshes to the
      target after 1 second and links to it; there is no frame. */
  function OgSegs(link: Link, targetUrl: string, baseUrl: string, host: string): (r: seq<Seg>)
    ensures |r| > |PageHead(link, baseUrl, host)|
    ensures r[..|PageHead(link, baseUrl, host)|] == PageHead(link, baseUrl, host)
    ensures Adjacent(r, Lit(OgRefreshOpen), Esc(targetUrl))
    ensures Adjacent(r, Lit(OgBodyOpen), Esc(targetUrl))
    ensures Lit(CloakFrameOpen) !in r[|PageHead(link, baseUrl, host)|..]
  {
    var head := PageHead(link, baseUrl, host);
    var body := [Lit(OgRefreshOpen), Esc(targetUrl), Lit(OgBodyOpen), Esc(targetUrl),
                 Lit(AttrClose), Esc(targetUrl), Lit(OgTail)];
    var r := head + body;
    assert r[..|head|] == head && r[|head|..] == body;
    assert r[|head|] == Lit(OgRefreshOpen) && r[|head| + 1] == Esc(targetUrl);
    assert r[|head| + 2] == Lit(OgBodyOpen) && r[|head| + 3] == Esc(targetUrl);
    r
  }

  /** The rendered page; every markup-special character in it comes from the
      template, none from an interpolated value. */
  function GenerateOgHtml(link: Link, targetUrl: string, baseUrl: string, host: string): (html: string)
    ensures |html| == |Origin(OgSegs(link, targetUrl, baseUrl, host))|
    ensures forall k :: 0 <= k < |html| && IsSpecial(html[k]) ==> Origin(OgSegs(link, targetUrl, baseUrl, host))[k]
  {
    var segs := OgSegs(link, targetUrl, baseUrl, host);
    MarkupComesFromTemplate(segs);
    Render(segs)
  }

  /** `generatePasswordHtml`: the error paragraph appears iff `hasError`, and
      the form posts back to `/` and the escaped slug. */
  function PasswordSegs(slug: string, hasError: bool): (r: seq<Seg>)
    ensures Lit(PasswordError) in r <==> hasError
    ensures Adjacent(r, Lit(PasswordFormOpen), Lit(FormAction)) && Adjacent(r, Lit(FormAction), Esc(slug))
  {
    var err := if hasError then [Lit(PasswordError)] else [];
    var r := [Lit(PasswordHead)] + err + [Lit(PasswordFormOpen), Lit(FormAction), Esc(slug), Lit(PasswordTail)];
    assert r[1 + |err|] == Lit(PasswordFormOpen) && r[2 + |err|] == Lit(FormAction) && r[3 + |err|] == Esc(slug);
    r
  }

  /** The slug is the only value the password page interpolates. */
  lemma PasswordPageValues(slug: string, hasError: bool)
    ensures Interpolated(PasswordSegs(slug, hasError)) == {slug}
  {
    var r := PasswordSegs(slug, hasError);
    var k := if hasError then 4 else 3;
    assert r[k] == Esc(slug);
    assert forall i :: 0 <= i < |r| && r[i].Esc? ==> i == k;
  }

  /** The rendered page; every markup-special character in it comes from the
      template, none from an interpolated value. */
  function GeneratePasswordHtml(slug: string, hasError: bool): (html: string)
    ensures |html| == |Origin(PasswordSegs(slug, hasError))|
    ensures forall k :: 0 <= k < |html| && IsSpecial(html[k]) ==> Origin(PasswordSegs(slug, hasError))[k]
  {
    var segs := PasswordSegs(slug, hasError);
    MarkupComesFromTemplate(segs);
    Render(segs)
  }

  /** `generateUnsafeWarningHtml`: the escaped target is shown, the form posts
      back to `/` and the escaped slug with a hidden `confirm=true` field, and
      carries a hidden `password` field iff a non-empty password is given. */
  function UnsafeSegs(slug: string, targetUrl: string, password: Option<string>): (r: seq<Seg>)
    ensures Lit(UnsafeConfirmField) in r
    ensures Lit(UnsafePasswordField) in r <==> Truthy(password)
    ensures Adjacent(r, Lit(UnsafeHead), Esc(targetUrl))
    ensures Adjacent(r, Lit(UnsafeFormOpen), Lit(FormAction)) && Adjacent(r, Lit(FormAction), Esc(slug))
    ensures Adjacent(r, Esc(slug), Lit(UnsafeConfirmField))
    ensures Truthy(password) ==> Adjacent(r, Lit(UnsafePasswordField), Esc(password.value))
  {
    var pw := if Truthy(password) then [Lit(UnsafePasswordField), Esc(password.value), Lit(AttrClose)] else [];
    var r := [Lit(UnsafeHead), Esc(targetUrl), Lit(UnsafeFormOpen), Lit(FormAction), Esc(slug), Lit(UnsafeConfirmField)]
             + pw + [Lit(UnsafeTail)];
    assert r[0] == Lit(UnsafeHead) && r[1] == Esc(targetUrl);
    assert r[2] == Lit(UnsafeFormOpen) && r[3] == Lit(FormAction);
    assert r[4] == Esc(slug) && r[5] == Lit(UnsafeConfirmField);
    assert Truthy(password) ==> r[6] == Lit(UnsafePasswordField) && r[7] == Esc(password.value);
    r
  }

  /** The unsafe page interpolates the target, the slug and, when given, the
      password, and nothing else. */
  lemma UnsafePageValues(slug: string, targetUrl: string, password: Option<string>)
    ensures Interpolated(UnsafeSegs(slug, targetUrl, password))
            == {targetUrl, slug} + (if Truthy(password) then {password.value} else {})
  {
    var r := UnsafeSegs(slug, targetUrl, password);
    assert r[1] == Esc(targetUrl) && r[4] == Esc(slug);
    if Truthy(password) {
      assert r[7] == Esc(password.value);
      assert forall i :: 0 <= i < |r| && r[i].Esc? ==> i == 1 || i == 4 || i == 7;
    } else {
      assert forall i :: 0 <= i < |r| && r[i].Esc? ==> i == 1 || i == 4;
    }
  }

  /** The rendered page; every markup-special character in it comes from the
      template, none from an interpolated value. */
  function GenerateUnsafeWarningHtml(slug: string, targetUrl: string, password: Option<string>): (html: string)
    ensures |html| == |Origin(UnsafeSegs(slug, targetUrl, password))|
    ensures forall k :: 0 <= k < |html| && IsSpecial(html[k]) ==> Origin(UnsafeSegs(slug, targetUrl, password))[k]
  {
    var segs := UnsafeSegs(slug, targetUrl, password);
    MarkupComesFromTemplate(segs);
    Render(segs)
  }
}
