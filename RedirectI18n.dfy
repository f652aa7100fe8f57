/** Locale selection for the gate pages: an Accept-Language header value
    (RFC 9110 section 12.5.4, language tags of BCP 47) is resolved to one
    of the ten locales that have a translation table. */
module RedirectI18n {
  import opened Wrappers
  import opened Text

  /** The eight messages every locale defines. */
  datatype Messages = Messages(
    passwordTitle: string,
    passwordLabel: string,
    passwordPlaceholder: string,
    passwordError: string,
    continueLabel: string,
    unsafeTitle: string,
    unsafeDesc: string,
    goBack: string)

  /** The translation table, keyed by locale, in the table's own order. */
  const Translations: map<string, Messages> := map[
    "en" := Messages("Password Required", "Password", "Enter password", "Incorrect password",
      "Continue", "Potentially Unsafe Link",
      "This link has been flagged as potentially unsafe. Proceed with caution.", "Go Back"),
    "zh-CN" := Messages("需要密码", "密码", "请输入密码", "密码错误", "继续", "潜在不安全链接",
      "此链接已被标记为潜在不安全。请谨慎访问。", "返回"),
    "zh-TW" := Messages("需要密碼", "密碼", "請輸入密碼", "密碼錯誤", "繼續", "潛在不安全連結",
      "此連結已被標記為潛在不安全。請謹慎訪問。", "返回"),
    "ja" := Messages("パスワードが必要です", "パスワード", "パスワードを入力", "パスワードが間違っています",
      "続ける", "安全でない可能性のあるリンク",
      "このリンクは安全でない可能性があるとしてフラグが付けられています。注意して進んでください。", "戻る"),
    "ko" := Messages("비밀번호 필요", "비밀번호", "비밀번호 입력", "비밀번호가 올바르지 않습니다",
      "계속", "잠재적으로 안전하지 않은 링크",
      "이 링크는 잠재적으로 안전하지 않은 것으로 표시되었습니다. 주의해서 진행하십시오.", "뒤로 가기"),
    "fr" := Messages("Mot de passe requis", "Mot de passe", "Entrez le mot de passe", "Mot de passe incorrect",
      "Continuer", "Lien potentiellement dangereux",
      "Ce lien a été signalé comme potentiellement dangereux. Procédez avec prudence.", "Retour"),
    "de" := Messages("Passwort erforderlich", "Passwort", "Passwort eingeben", "Falsches Passwort",
      "Weiter", "Potenziell unsicherer Link",
      "Dieser Link wurde als potenziell unsicher markiert. Gehen Sie mit Vorsicht vor.", "Zurück"),
    "es" := Messages("Contraseña requerida", "Contraseña", "Introducir contraseña", "Contraseña incorrecta",
      "Continuar", "Enlace potencialmente inseguro",
      "Este enlace ha sido marcado como potencialmente inseguro. Proceda con precaución.", "Volver"),
    "pt" := Messages("Senha necessária", "Senha", "Digite a senha", "Senha incorreta",
      "Continuar", "Link potencialmente inseguro",
      "Este link foi sinalizado como potencialmente inseguro. Prossiga com cuidado.", "Voltar"),
    "ru" := Messages("Требуется пароль", "Пароль", "Введите пароль", "Неверный пароль",
      "Продолжить", "Потенциально небезопасная ссылка",
      "Эта ссылка была отмечена как потенциально небезопасная. Будьте осторожны.", "Назад")
  ]

  /** The keys of the translation table, in its order (`Object.keys`). */
  const SupportedLocales: seq<string> :=
    ["en", "zh-CN", "zh-TW", "ja", "ko", "fr", "de", "es", "pt", "ru"]

  lemma SupportedLocalesAreTheTableKeys()
    ensures forall l :: l in Translations <==> l in SupportedLocales
    ensures |SupportedLocales| == 10
  {
  }

  /** What the resolver needs from the runtime: `Intl.getCanonicalLocales(tag)[0]`
      (`None` when it throws on an ill-formed tag) and `Number.parseFloat` of a
      q-value, as an integer number of thousandths. */
  datatype Intl = Intl(canonicalize: string -> Option<string>, qWeight: string -> int)

  /** One comma-separated entry of the header: its normalised tag, its weight
      in thousandths, and its position in the header. */
  datatype Candidate = Candidate(code: string, q: int, pos: nat)

  /** `normalizeLocaleCode`: the first `_` becomes `-`, then the tag is
      canonicalised; a tag the runtime rejects becomes `""`. */
  function NormalizeLocaleCode(code: string, intl: Intl): (r: string)
    ensures intl.canonicalize(ReplaceFirst(code, '_', '-')).None? ==> r == ""
    ensures intl.canonicalize(ReplaceFirst(code, '_', '-')).Some? ==>
              r == intl.canonicalize(ReplaceFirst(code, '_', '-')).value
  {
    match intl.canonicalize(ReplaceFirst(code, '_', '-'))
    case None => ""
    case Some(c) => c
  }

  /** The weight of an entry: 1.0 when there is no `;q=` part or it is empty. */
  function Weight(parts: seq<string>, intl: Intl): int {
    if |parts| > 1 && parts[1] != "" then intl.qWeight(parts[1]) else 1000
  }

  /** One entry `lang` of the header at position `pos`: trimmed, split at
      `;q=`, the tag normalised and the weight read from the second piece. */
  function ParseEntry(lang: string, pos: nat, intl: Intl): (c: Candidate)
    ensures c.pos == pos
  {
    var parts := SplitOn(Trim(lang), ";q=");
    Candidate(NormalizeLocaleCode(parts[0], intl), Weight(parts, intl), pos)
  }

  /** An entry's tag is the trimmed text before `;q=`, normalised. An entry
      without `;q=` weighs 1.0; otherwise its weight is read from the text
      between the first `;q=` and the next one (or the end), and an empty
      such text weighs 1.0. */
  lemma ParseEntryParts(lang: string, pos: nat, intl: Intl)
    ensures !Contains(Trim(lang), ";q=") ==> ParseEntry(lang, pos, intl).q == 1000
    ensures var t := Trim(lang);
            IndexOf(t, ";q=").Some? ==>
              var w := Before(t[IndexOf(t, ";q=").value + 3..], ";q=");
              ParseEntry(lang, pos, intl).q == if w != "" then intl.qWeight(w) else 1000
    ensures ParseEntry(lang, pos, intl).code == NormalizeLocaleCode(Before(Trim(lang), ";q="), intl)
  {
    var parts := SplitOn(Trim(lang), ";q=");
    if !Contains(Trim(lang), ";q=") {
      assert |Before(Trim(lang), ";q=")| == |Trim(lang)|;
      assert parts == [Trim(lang)];
    }
  }

  /** The entries of a header, in header order, numbered from `from`. */
  function ParseEntries(langs: seq<string>, from: nat, intl: Intl): (cs: seq<Candidate>)
    ensures |cs| == |langs|
    ensures forall i :: 0 <= i < |cs| ==> cs[i] == ParseEntry(langs[i], from + i, intl)
  {
    seq(|langs|, i requires 0 <= i < |langs| => ParseEntry(langs[i], from + i, intl))
  }

  /** A header entry without `;q=` and without `_` or surrounding white
      space is its normalised tag with weight 1.0. */
  lemma PlainEntry(tag: string, pos: nat, intl: Intl)
    requires tag != [] && !IsSpace(tag[0]) && !IsSpace(tag[|tag| - 1])
    requires ';' !in tag && '_' !in tag
    ensures ParseEntry(tag, pos, intl) == Candidate(NormalizeLocaleCode(tag, intl), 1000, pos)
  {
    TrimUnchanged(tag);
    IndexOfNone(tag, ";q=");
  }

  /** An entry `tag;q=w` (no white space around it, no `;` in either part)
      is the normalised tag with the weight read from `w`. */
  lemma WeightedEntry(tag: string, w: string, pos: nat, intl: Intl)
    requires tag != [] && !IsSpace(tag[0]) && ';' !in tag
    requires w != [] && !IsSpace(w[|w| - 1]) && ';' !in w
    ensures ParseEntry(tag + ";q=" + w, pos, intl) == Candidate(NormalizeLocaleCode(tag, intl), intl.qWeight(w), pos)
  {
    var e := tag + ";q=" + w;
    assert e[0] == tag[0] && e[|e| - 1] == w[|w| - 1];
    TrimUnchanged(e);
    assert e[..|tag|] == tag && e[|tag|..|tag| + 3] == ";q=" && e[|tag| + 3..] == w;
    IndexOfFirst(e, ";q=", |tag|);
    IndexOfNone(w, ";q=");
    assert SplitOn(w, ";q=") == [w];
    assert SplitOn(e, ";q=") == [tag, w];
  }

  /** Header order: positions strictly increase. */
  predicate InHeaderOrder(cs: seq<Candidate>) {
    forall i, j :: 0 <= i < j < |cs| ==> cs[i].pos < cs[j].pos
  }

  /** `a` is scanned before `b`: a higher weight, or an equal weight and an
      earlier place in the header (the sort is stable). */
  predicate Precedes(a: Candidate, b: Candidate) {
    a.q > b.q || (a.q == b.q && a.pos < b.pos)
  }

  predicate Ordered(cs: seq<Candidate>) {
    forall i, j :: 0 <= i < j < |cs| ==> Precedes(cs[i], cs[j])
  }

  /** Prepending an element that precedes everything keeps the order. */
  lemma OrderedCons(x: Candidate, s: seq<Candidate>)
    requires Ordered(s)
    requires forall i :: 0 <= i < |s| ==> Precedes(x, s[i])
    ensures Ordered([x] + s)
  {
    var r := [x] + s;
    forall i, j | 0 <= i < j < |r| ensures Precedes(r[i], r[j]) {
      if i == 0 { assert r[j] == s[j - 1]; } else { assert r[i] == s[i - 1] && r[j] == s[j - 1]; }
    }
  }

  /** Insert `c`, which comes before every element of `cs` in the header,
      behind the elements of strictly greater weight. */
  function Insert(c: Candidate, cs: seq<Candidate>): (r: seq<Candidate>)
    requires Ordered(cs)
    requires forall i :: 0 <= i < |cs| ==> c.pos < cs[i].pos
    ensures Ordered(r)
    ensures multiset(r) == multiset(cs) + multiset{c}
    ensures forall x :: x in r ==> x == c || x in cs
  {
    if cs == [] then [c]
    else if cs[0].q > c.q then
      OrderedTail(c, cs);
      var rest := Insert(c, cs[1..]);
      HeadPrecedesInserted(c, cs, rest);
      OrderedCons(cs[0], rest);
      assert cs == [cs[0]] + cs[1..];
      [cs[0]] + rest
    else
      PrecedesOrdered(c, cs);
      OrderedCons(c, cs);
      [c] + cs
  }

  lemma OrderedTail(c: Candidate, cs: seq<Candidate>)
    requires cs != [] && Ordered(cs)
    requires forall i :: 0 <= i < |cs| ==> c.pos < cs[i].pos
    ensures Ordered(cs[1..])
    ensures forall i :: 0 <= i < |cs[1..]| ==> c.pos < cs[1..][i].pos
  {
    forall i, j | 0 <= i < j < |cs[1..]| ensures Precedes(cs[1..][i], cs[1..][j]) {
      assert cs[1..][i] == cs[i + 1] && cs[1..][j] == cs[j + 1];
    }
    forall i | 0 <= i < |cs[1..]| ensures c.pos < cs[1..][i].pos {
      assert cs[1..][i] == cs[i + 1];
    }
  }

  /** The head of `cs` precedes everything in `rest` when `rest` holds only
      `c`, which it outweighs, and later elements of `cs`. */
  lemma HeadPrecedesInserted(c: Candidate, cs: seq<Candidate>, rest: seq<Candidate>)
    requires cs != [] && Ordered(cs) && cs[0].q > c.q
    requires forall x :: x in rest ==> x == c || x in cs[1..]
    ensures forall i :: 0 <= i < |rest| ==> Precedes(cs[0], rest[i])
  {
    forall i | 0 <= i < |rest| ensures Precedes(cs[0], rest[i]) {
      assert rest[i] in rest;
      if rest[i] != c {
        var j :| 0 <= j < |cs[1..]| && cs[1..][j] == rest[i];
        assert cs[j + 1] == rest[i];
      }
    }
  }

  /** A candidate that precedes the head of an ordered list precedes all of it. */
  lemma PrecedesOrdered(c: Candidate, cs: seq<Candidate>)
    requires cs != [] && Ordered(cs)
    requires forall i :: 0 <= i < |cs| ==> c.pos < cs[i].pos
    requires !(cs[0].q > c.q)
    ensures forall i :: 0 <= i < |cs| ==> Precedes(c, cs[i])
  {
    forall i | 0 <= i < |cs| ensures Precedes(c, cs[i]) {
      assert Precedes(c, cs[0]);
      if i > 0 { assert Precedes(cs[0], cs[i]); }
    }
  }

  /** `languages.sort((a, b) => b.q - a.q)` with a stable sort, on
      candidates given in header order. */
  function SortByWeight(cs: seq<Candidate>): (r: seq<Candidate>)
    requires InHeaderOrder(cs)
    ensures Ordered(r)
    ensures multiset(r) == multiset(cs)
  {
    if cs == [] then []
    else
      var rest := SortByWeight(cs[1..]);
      HeadBeforeRest(cs, rest);
      assert cs == [cs[0]] + cs[1..];
      Insert(cs[0], rest)
  }

  /** The first entry of the header comes before any arrangement of the others. */
  lemma HeadBeforeRest(cs: seq<Candidate>, rest: seq<Candidate>)
    requires cs != [] && InHeaderOrder(cs)
    requires multiset(rest) == multiset(cs[1..])
    ensures forall i :: 0 <= i < |rest| ==> cs[0].pos < rest[i].pos
  {
    forall i | 0 <= i < |rest| ensures cs[0].pos < rest[i].pos {
      assert rest[i] in multiset(rest);
      assert rest[i] in cs[1..];
      var j :| 0 <= j < |cs[1..]| && cs[1..][j] == rest[i];
      assert cs[j + 1] == rest[i];
    }
  }

  /** Two ordered arrangements of the same candidates start alike. */
  lemma HeadsAgree(a: seq<Candidate>, b: seq<Candidate>)
    requires Ordered(a) && Ordered(b)
    requires multiset(a) == multiset(b)
    requires a != []
    ensures b != [] && a[0] == b[0]
  {
    assert a[0] in multiset(b);
    var k :| 0 <= k < |b| && b[k] == a[0];
    assert b[0] in multiset(a);
    var m :| 0 <= m < |a| && a[m] == b[0];
  }

  lemma TailMultiset(a: seq<Candidate>)
    requires a != []
    ensures multiset(a[1..]) == multiset(a) - multiset{a[0]}
  {
    assert a == [a[0]] + a[1..];
  }

  /** An ordered arrangement of a set of candidates is unique: the scan order
      is fully determined by the weights and header positions. */
  lemma {:induction false} OrderedPermutationUnique(a: seq<Candidate>, b: seq<Candidate>)
    requires Ordered(a) && Ordered(b)
    requires multiset(a) == multiset(b)
    ensures a == b
    decreases |a|
  {
    if a == [] {
      assert |multiset(b)| == 0;
    } else {
      HeadsAgree(a, b);
      TailMultiset(a);
      TailMultiset(b);
      OrderedPermutationUnique(a[1..], b[1..]);
      assert a == [a[0]] + a[1..] && b == [b[0]] + b[1..];
    }
  }

  /** What a single candidate selects: the tag itself when supported, else
      its primary subtag (before the first `-`) when that is supported;
      candidates that normalised to `""` select nothing. */
  function MatchOf(code: string): (r: Option<string>)
    ensures r.Some? ==> r.value in SupportedLocales
    ensures code in SupportedLocales ==> r == Some(code)
    ensures code !in SupportedLocales && r.Some? ==> r.value == Before(code, "-") && r.value != ""
    ensures code == "" ==> r.None?
    ensures code != "" && code !in SupportedLocales ==>
              var prefix := Before(code, "-");
              r == if prefix != "" && prefix in SupportedLocales then Some(prefix) else None
  {
    if code == "" then None
    else if code in SupportedLocales then Some(code)
    else
      var prefix := Before(code, "-");
      if prefix != "" && prefix in SupportedLocales then Some(prefix) else None
  }

  /** The first-match scan over the sorted candidates, with `en` when nothing matches. */
  function FirstMatch(cs: seq<Candidate>): (r: string)
    ensures r in SupportedLocales
  {
    if cs == [] then "en"
    else match MatchOf(cs[0].code)
      case Some(l) => l
      case None => FirstMatch(cs[1..])
  }

  /** The scan returns what the first matching candidate selects. */
  lemma {:induction false} FirstMatchIsFirst(cs: seq<Candidate>, k: nat)
    requires k < |cs|
    requires forall j :: 0 <= j < k ==> MatchOf(cs[j].code).None?
    requires MatchOf(cs[k].code).Some?
    ensures FirstMatch(cs) == MatchOf(cs[k].code).value
    decreases k
  {
    if k > 0 {
      assert MatchOf(cs[0].code).None?;
      forall j | 0 <= j < k - 1 ensures MatchOf(cs[1..][j].code).None? {
        assert cs[1..][j] == cs[j + 1];
      }
      assert cs[1..][k - 1] == cs[k];
      FirstMatchIsFirst(cs[1..], k - 1);
    }
  }

  /** When no candidate matches, the result is `en`. */
  lemma {:induction false} FirstMatchDefault(cs: seq<Candidate>)
    requires forall j :: 0 <= j < |cs| ==> MatchOf(cs[j].code).None?
    ensures FirstMatch(cs) == "en"
  {
    if cs != [] {
      assert MatchOf(cs[0].code).None?;
      FirstMatchDefault(cs[1..]);
    }
  }

  /** The candidates of a non-empty header, in the order they are scanned. */
  function ScanOrder(header: string, intl: Intl): (cs: seq<Candidate>)
    ensures Ordered(cs)
    ensures multiset(cs) == multiset(ParseEntries(SplitOn(header, ","), 0, intl))
  {
    var entries := ParseEntries(SplitOn(header, ","), 0, intl);
    assert InHeaderOrder(entries);
    SortByWeight(entries)
  }

  /** `resolveRedirectLocale`. */
  function ResolveRedirectLocale(header: Option<string>, intl: Intl): (r: string)
    ensures r in SupportedLocales
    ensures header == None || header == Some("") ==> r == "en"
  {
    if header.None? || header.value == "" then "en"
    else FirstMatch(ScanOrder(header.value, intl))
  }

  /** Every resolved locale has an entry in the translation table. */
  lemma ResolvedLocaleIsTranslated(header: Option<string>, intl: Intl)
    ensures ResolveRedirectLocale(header, intl) in Translations
  {
    SupportedLocalesAreTheTableKeys();
  }
}

/** The resolver on two shapes of header — one plain tag, and a tag
    followed by a weighted tag — and on two sample headers of those shapes. */
module RedirectI18nExamples {
  import opened Wrappers
  import opened Text
  import opened RedirectI18n

  /** A tag with nothing for the parser to trim, split or rewrite. */
  predicate PlainTag(tag: string) {
    && tag != [] && !IsSpace(tag[0]) && !IsSpace(tag[|tag| - 1])
    && ';' !in tag && '_' !in tag && ',' !in tag
  }

  /** A plain tag that the canonicaliser keeps parses to itself. */
  lemma KeptEntry(tag: string, pos: nat, intl: Intl)
    requires PlainTag(tag) && intl.canonicalize(tag) == Some(tag)
    ensures ParseEntry(tag, pos, intl) == Candidate(tag, 1000, pos)
  {
    PlainEntry(tag, pos, intl);
    assert ReplaceFirst(tag, '_', '-') == tag;
  }

  lemma SingleTagScanOrder(tag: string, intl: Intl)
    requires PlainTag(tag) && intl.canonicalize(tag) == Some(tag)
    ensures ScanOrder(tag, intl) == [Candidate(tag, 1000, 0)]
  {
    IndexOfNone(tag, ",");
    assert SplitOn(tag, ",") == [tag];
    var cs := ParseEntries([tag], 0, intl);
    assert cs[0] == ParseEntry(tag, 0, intl);
    KeptEntry(tag, 0, intl);
    assert cs == [Candidate(tag, 1000, 0)];
    OrderedPermutationUnique(ScanOrder(tag, intl), cs);
  }

  lemma FirstMatchOfOne(c: Candidate)
    ensures FirstMatch([c]) == MatchOf(c.code).GetOr("en")
  {
    assert [c][1..] == [];
  }

  lemma FirstMatchOfTwo(c: Candidate, d: Candidate)
    ensures FirstMatch([c, d]) == if MatchOf(c.code).Some? then MatchOf(c.code).value else MatchOf(d.code).GetOr("en")
  {
    assert [c, d][1..] == [d];
    FirstMatchOfOne(d);
  }

  /** A header holding one plain tag selects what that tag selects, else `en`. */
  lemma ResolvesSingleTag(tag: string, intl: Intl)
    requires PlainTag(tag) && intl.canonicalize(tag) == Some(tag)
    ensures ResolveRedirectLocale(Some(tag), intl) == MatchOf(tag).GetOr("en")
  {
    SingleTagScanOrder(tag, intl);
    FirstMatchOfOne(Candidate(tag, 1000, 0));
  }

  lemma PairSplits(a: string, rest: string)
    requires ',' !in a && ',' !in rest
    ensures SplitOn(a + "," + rest, ",") == [a, rest]
  {
    SplitAtOnly(a, rest, ',');
  }

  lemma PairEntries(a: string, b: string, w: string, intl: Intl)
    requires PlainTag(a) && PlainTag(b)
    requires w != [] && !IsSpace(w[|w| - 1]) && ';' !in w
    requires intl.canonicalize(a) == Some(a) && intl.canonicalize(b) == Some(b)
    ensures ParseEntries([a, b + ";q=" + w], 0, intl) == [Candidate(a, 1000, 0), Candidate(b, intl.qWeight(w), 1)]
  {
    var cs := ParseEntries([a, b + ";q=" + w], 0, intl);
    assert cs[0] == ParseEntry(a, 0, intl) && cs[1] == ParseEntry(b + ";q=" + w, 1, intl);
    KeptEntry(a, 0, intl);
    WeightedEntry(b, w, 1, intl);
    assert ReplaceFirst(b, '_', '-') == b;
  }

  lemma PairScanOrder(a: string, b: string, w: string, intl: Intl)
    requires PlainTag(a) && PlainTag(b)
    requires w != [] && !IsSpace(w[|w| - 1]) && ';' !in w && ',' !in w
    requires intl.canonicalize(a) == Some(a) && intl.canonicalize(b) == Some(b)
    requires intl.qWeight(w) <= 1000
    ensures ScanOrder(a + "," + (b + ";q=" + w), intl) == [Candidate(a, 1000, 0), Candidate(b, intl.qWeight(w), 1)]
  {
    var rest := b + ";q=" + w;
    assert ',' !in rest;
    PairSplits(a, rest);
    PairEntries(a, b, w, intl);
    var cs := [Candidate(a, 1000, 0), Candidate(b, intl.qWeight(w), 1)];
    assert Ordered(cs);
    OrderedPermutationUnique(ScanOrder(a + "," + rest, intl), cs);
  }

  /** A header `a,b;q=w` with a weight of at most 1.0 selects what `a`
      selects, else what `b` selects, else `en`. */
  lemma ResolvesPair(a: string, b: string, w: string, intl: Intl)
    requires PlainTag(a) && PlainTag(b)
    requires w != [] && !IsSpace(w[|w| - 1]) && ';' !in w && ',' !in w
    requires intl.canonicalize(a) == Some(a) && intl.canonicalize(b) == Some(b)
    requires intl.qWeight(w) <= 1000
    ensures ResolveRedirectLocale(Some(a + "," + (b + ";q=" + w)), intl) ==
              if MatchOf(a).Some? then MatchOf(a).value else MatchOf(b).GetOr("en")
  {
    PairScanOrder(a, b, w, intl);
    FirstMatchOfTwo(Candidate(a, 1000, 0), Candidate(b, intl.qWeight(w), 1));
  }

  /** `zh-CN,en;q=0.8` resolves to `zh-CN`. */
  lemma ResolvesWeightedHeader(intl: Intl)
    requires intl.canonicalize("zh-CN") == Some("zh-CN") && intl.canonicalize("en") == Some("en")
    requires intl.qWeight("0.8") == 800
    ensures ResolveRedirectLocale(Some("zh-CN" + "," + ("en" + ";q=" + "0.8")), intl) == "zh-CN"
  {
    ResolvesPair("zh-CN", "en", "0.8", intl);
  }

  lemma PrimarySubtagMatch()
    ensures MatchOf("en-US") == Some("en")
  {
    var h := "en-US";
    assert h[..2] == "en" && OccursAt(h, "-", 2);
    IndexOfFirst(h, "-", 2);
  }

  /** `en-US` resolves to `en` through its primary subtag. */
  lemma ResolvesByPrimarySubtag(intl: Intl)
    requires intl.canonicalize("en-US") == Some("en-US")
    ensures ResolveRedirectLocale(Some("en-US"), intl) == "en"
  {
    ResolvesSingleTag("en-US", intl);
    PrimarySubtagMatch();
  }
}
