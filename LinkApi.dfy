/** The link edit and upsert handlers over the link store. The store is a
    map from slug to record; `isSafeUrl`, `normalizeSlug` and the clock are
    parameters. */
module LinkApi {
  import opened Wrappers
  import opened Links

  /** The `unsafe` flag after auto-detection: a safety check runs only when
      the submission leaves the flag undefined and `needsCheck` holds, and a
      failing check sets it to true. */
  function AutoFlag(unsafe: Option<bool>, needsCheck: bool, safe: bool): (r: Option<bool>)
    ensures unsafe.Some? ==> r == unsafe
    ensures unsafe.None? ==> (r == Some(true) <==> needsCheck && !safe)
    ensures unsafe.None? && !(needsCheck && !safe) ==> r.None?
    ensures r == Some(false) ==> unsafe == Some(false)
  {
    if unsafe.None? && needsCheck && !safe then Some(true) else unsafe
  }

  /** A property of `over` if it has one, else the one of `base`. */
  function Over<T>(base: Option<T>, over: Option<T>): Option<T> {
    if over.Some? then over else base
  }

  /** `{ ...base, ...over }` for two records: `over`'s required properties,
      each optional property of `over` that is present, and `base`'s
      otherwise. */
  function Spread(base: Link, over: Link): (r: Link)
    ensures forall f :: Get(r, f) == if Get(over, f).Some? then Get(over, f) else Get(base, f)
    ensures r.id == over.id && r.url == over.url && r.slug == over.slug
    ensures r.createdAt == over.createdAt && r.updatedAt == over.updatedAt
    ensures r.extra == base.extra + over.extra
  {
    Link(over.id, over.url, over.slug, over.createdAt, over.updatedAt,
         Over(base.comment, over.comment), Over(base.title, over.title),
         Over(base.description, over.description), Over(base.image, over.image),
         Over(base.apple, over.apple), Over(base.google, over.google),
         Over(base.cloaking, over.cloaking), Over(base.redirectWithQuery, over.redirectWithQuery),
         Over(base.password, over.password), Over(base.expiration, over.expiration),
         Over(base.unsafe, over.unsafe), base.extra + over.extra)
  }

  /** The record the edit handler writes: the existing record spread with the
      submission, `id` and `createdAt` pinned, `updatedAt` the clock in
      seconds rounded down, and then every optional property the submission
      does not carry deleted. */
  method MergeForEdit(existing: Link, link: Link, nowMs: int) returns (newLink: Link)
    ensures newLink.id == existing.id && newLink.createdAt == existing.createdAt
    ensures newLink.updatedAt * 1000 <= nowMs < (newLink.updatedAt + 1) * 1000
    ensures newLink.url == link.url && newLink.slug == link.slug
    ensures forall f :: Get(newLink, f) == Get(link, f)
    ensures newLink.extra == existing.extra + link.extra
  {
    newLink := Spread(existing, link).(id := existing.id, createdAt := existing.createdAt,
                                       updatedAt := nowMs / 1000);
    ghost var spread := newLink;
    var i := 0;
    while i < |OptionalFields|
      invariant 0 <= i <= |OptionalFields|
      invariant newLink.id == existing.id && newLink.createdAt == existing.createdAt
      invariant newLink.updatedAt == nowMs / 1000
      invariant newLink.url == link.url && newLink.slug == link.slug
      invariant newLink.extra == existing.extra + link.extra
      invariant forall f :: f in OptionalFields[..i] ==> Get(newLink, f) == Get(link, f)
      invariant forall f :: f !in OptionalFields[..i] ==> Get(newLink, f) == Get(spread, f)
    {
      var field := OptionalFields[i];
      ghost var before := newLink;
      if Get(link, field) == None {
        newLink := Without(newLink, field);
      }
      assert Get(newLink, field) == Get(link, field) by {
        if field !in OptionalFields[..i] { assert Get(before, field) == Get(spread, field); }
      }
      assert forall f :: f != field ==> Get(newLink, f) == Get(before, f);
      assert OptionalFields[..i + 1] == OptionalFields[..i] + [field];
      i := i + 1;
    }
    forall f ensures Get(newLink, f) == Get(link, f) {
      OptionalFieldsListsEveryField(f);
      assert OptionalFields[..i] == OptionalFields;
    }
  }

  /** What `MergeForEdit` promises about its result. */
  predicate MergedForEdit(existing: Link, link: Link, nowMs: int, r: Link) {
    && r.id == existing.id && r.createdAt == existing.createdAt
    && r.updatedAt * 1000 <= nowMs < (r.updatedAt + 1) * 1000
    && r.url == link.url && r.slug == link.slug
    && (forall f :: Get(r, f) == Get(link, f))
    && r.extra == existing.extra + link.extra
  }

  /** The edit merge is fully determined: two records that both meet its
      postcondition are the same record. */
  lemma EditMergeIsUnique(existing: Link, link: Link, nowMs: int, a: Link, b: Link)
    requires MergedForEdit(existing, link, nowMs, a) && MergedForEdit(existing, link, nowMs, b)
    ensures a == b
  {
    assert a.updatedAt == b.updatedAt;
    OptionalsDetermineLink(a, b);
  }

  datatype EditOutcome =
    | EditFailed(status: int, statusText: string)
    | Edited(status: int, link: Link)

  datatype UpsertStatus = Existing | Created

  datatype UpsertOutcome = UpsertOutcome(status: int, link: Link, upsertStatus: UpsertStatus)

  class LinkStore {
    /** Stored links by slug. */
    var links: map<string, Link>

    /** Every record is stored under its own slug. */
    predicate Valid()
      reads this
    {
      forall k :: k in links ==> links[k].slug == k
    }

    constructor()
      ensures links == map[] && Valid()
    {
      links := map[];
    }

    /** `PUT /api/link/edit`. Preview mode answers 403 and an unknown slug 404,
        both leaving the store unchanged; otherwise the merged record (with
        `unsafe` auto-detected when the submission leaves it undefined and
        the URL changed) is stored under its slug and returned with 201.
        `safetyChecks` counts the calls to `isSafe`. */
    method Edit(previewMode: bool, link: Link, nowMs: int, isSafe: string -> bool)
      returns (outcome: EditOutcome, safetyChecks: nat)
      modifies this
      ensures previewMode ==> outcome == EditFailed(403, "Preview mode cannot edit links.")
      ensures !previewMode && link.slug !in old(links) ==> outcome == EditFailed(404, "Link not found")
      ensures outcome.EditFailed? ==> links == old(links) && safetyChecks == 0
      ensures !previewMode && link.slug in old(links) ==>
                var existing := old(links)[link.slug];
                && outcome.Edited? && outcome.status == 201
                && links == old(links)[link.slug := outcome.link]
                && outcome.link.id == existing.id && outcome.link.createdAt == existing.createdAt
                && outcome.link.updatedAt == nowMs / 1000
                && outcome.link.url == link.url && outcome.link.slug == link.slug
                && (forall f :: f != Unsafe ==> Get(outcome.link, f) == Get(link, f))
                && outcome.link.unsafe == AutoFlag(link.unsafe, link.url != existing.url, isSafe(link.url))
                && outcome.link.extra == existing.extra + link.extra
                && safetyChecks == if link.unsafe.None? && link.url != existing.url then 1 else 0
      ensures old(Valid()) ==> Valid()
    {
      safetyChecks := 0;
      if previewMode {
        outcome := EditFailed(403, "Preview mode cannot edit links.");
        return;
      }
      if link.slug !in links {
        outcome := EditFailed(404, "Link not found");
        return;
      }
      var existingLink := links[link.slug];
      var submitted := link;
      if submitted.unsafe.None? && submitted.url != existingLink.url {
        var safe := isSafe(submitted.url);
        safetyChecks := 1;
        if !safe {
          submitted := submitted.(unsafe := Some(true));
        }
      }
      var newLink := MergeForEdit(existingLink, submitted, nowMs);
      assert Get(newLink, Unsafe) == Get(submitted, Unsafe);
      links := links[newLink.slug := newLink];
      outcome := Edited(201, newLink);
    }

    /** `POST /api/link/upsert`. The slug is normalised and `unsafe`
        auto-detected when undefined; a link already stored under the slug
        is returned as `existing` and the store is unchanged, otherwise the
        submission is stored under the slug and returned as `created` with
        201. No other slug's entry changes. */
    method Upsert(link: Link, normalizeSlug: string -> string, isSafe: string -> bool)
      returns (outcome: UpsertOutcome, safetyChecks: nat)
      modifies this
      ensures var slug := normalizeSlug(link.slug);
              && (slug in old(links) ==>
                    outcome == UpsertOutcome(200, old(links)[slug], Existing) && links == old(links))
              && (slug !in old(links) ==>
                    && outcome.status == 201 && outcome.upsertStatus == Created
                    && outcome.link == link.(slug := slug, unsafe := AutoFlag(link.unsafe, true, isSafe(link.url)))
                    && links == old(links)[slug := outcome.link])
              && (forall k :: k != slug ==> (k in links <==> k in old(links)))
              && (forall k :: k != slug && k in links ==> links[k] == old(links)[k])
      ensures safetyChecks == if link.unsafe.None? then 1 else 0
      ensures old(Valid()) ==> Valid() && outcome.link.slug == normalizeSlug(link.slug)
    {
      var submitted := link.(slug := normalizeSlug(link.slug));
      safetyChecks := 0;
      if submitted.unsafe.None? {
        var safe := isSafe(submitted.url);
        safetyChecks := 1;
        if !safe {
          submitted := submitted.(unsafe := Some(true));
        }
      }
      if submitted.slug in links {
        outcome := UpsertOutcome(200, links[submitted.slug], Existing);
        return;
      }
      links := links[submitted.slug := submitted];
      outcome := UpsertOutcome(201, submitted, Created);
    }
  }
}
