/**
 * What createPage and updatePage of
 * src/modules/static-pages/static-pages.service.ts write, column by column, and
 * what they refuse.
 */
module PageRows {
  import opened Wrappers
  import opened Text
  import opened Versions
  import opened LegalPages
  import DocumentVersions

  // ----- A page is created -----

  /** The oldest row of a slug. */
  predicate IsOldest(p: Pages, slug: string, id: PageId) {
    id in p.rows && p.rows[id].slug == slug && forall other :: other in p.rows && p.rows[other].slug == slug ==> id <= other
  }

  lemma {:induction false} OldestComesFirst(rows: map<PageId, Page>, n: nat, slug: string, id: PageId)
    requires id in rows && rows[id].slug == slug && id < n
    requires forall other :: other in rows && rows[other].slug == slug ==> id <= other
    ensures RowsBelow(rows, n, slug) != [] && RowsBelow(rows, n, slug)[0] == rows[id]
  {
    if n - 1 == id {
      NoneBelow(rows, n - 1, slug);
    } else {
      OldestComesFirst(rows, n - 1, slug, id);
    }
  }

  lemma {:induction false} NoneBelow(rows: map<PageId, Page>, n: nat, slug: string)
    requires forall other :: other in rows && rows[other].slug == slug ==> n <= other
    ensures RowsBelow(rows, n, slug) == []
  {
    if n > 0 { NoneBelow(rows, n - 1, slug); }
  }

  /** A slug and a locale have one row: a second is refused, and whatever is refused changes nothing. */
  lemma SecondRowIsRefused(p: Pages, dto: CreateDto, now: int)
    ensures
      var locale := if dto.locale == "" then "it" else dto.locale;
      var (after, r) := AfterCreate(p, dto, now);
      && (r.Err? <==> exists id :: id in p.rows && p.rows[id].slug == dto.slug && p.rows[id].locale == locale)
      && (r.Err? ==> r == Err(AlreadyExists) && after == p)
  {
    hide NewPage;
  }

  /** An accepted page is the row with the next number; every other row stays. */
  lemma OneRowIsAdded(p: Pages, dto: CreateDto, now: int)
    requires DocumentVersions.Valid(p) && AfterCreate(p, dto, now).1.Ok?
    ensures
      var after := AfterCreate(p, dto, now).0;
      && AfterCreate(p, dto, now).1 == Ok(p.nextId)
      && after.rows.Keys == p.rows.Keys + {p.nextId} && p.nextId !in p.rows
      && after.nextId == p.nextId + 1
      && (forall id :: id in p.rows ==> after.rows[id] == p.rows[id])
      && var page := after.rows[p.nextId];
      && page.slug == dto.slug && page.isActive == dto.isActive && page.changeSummary == dto.changeSummary
      && page.locale == (if dto.locale == "" then "it" else dto.locale)
      && (dto.requiresAcceptance.Some? ==> page.requiresAcceptance == dto.requiresAcceptance.value)
      && (dto.audience.Some? ==> page.audience == dto.audience.value)
      && (page.publishedAt.Some? <==> page.requiresAcceptance)
  {
    hide MaxVersion, RowsBelow;
  }

  /** The first row of a slug is at the version asked for, and the two agreements ask for acceptance by themselves. */
  lemma FirstRowOfASlug(p: Pages, dto: CreateDto, now: int)
    requires forall id :: id in p.rows ==> p.rows[id].slug != dto.slug
    ensures
      var page := AfterCreate(p, dto, now).0.rows[p.nextId];
      && AfterCreate(p, dto, now).1.Ok?
      && page.version == (if dto.version == "" then "1.0" else dto.version)
      && (dto.requiresAcceptance.None? ==>
            (page.requiresAcceptance <==> dto.slug == "privacy-policy" || dto.slug == "terms-conditions"))
      && (dto.audience.None? ==> page.audience == Everyone)
      && (page.requiresAcceptance ==> page.publishedAt == Some(now))
  {
    NoneBelow(p.rows, p.nextId, dto.slug);
    hide RowsBelow, MaxVersion;
  }

  /** A translation follows the oldest row of its slug in what the request leaves open, and is at the version in force. */
  lemma TranslationFollows(p: Pages, dto: CreateDto, now: int, oldest: PageId)
    requires DocumentVersions.Valid(p) && IsOldest(p, dto.slug, oldest) && AfterCreate(p, dto, now).1.Ok?
    ensures
      var page := AfterCreate(p, dto, now).0.rows[p.nextId];
      var first := p.rows[oldest];
      && page.version == Current(p, dto.slug)
      && (dto.requiresAcceptance.None? ==> page.requiresAcceptance == first.requiresAcceptance)
      && (dto.audience.None? ==> page.audience == first.audience)
      && (page.requiresAcceptance ==>
            page.publishedAt == if first.publishedAt.Some? then first.publishedAt else Some(now))
  {
    OldestComesFirst(p.rows, p.nextId, dto.slug, oldest);
    hide RowsBelow, MaxVersion;
  }

  // ----- A page is edited -----

  /** What an edit is refused for; a refused one changes nothing. */
  lemma EditIsRefusedIff(p: Pages, id: PageId, dto: UpdateDto, now: int)
    ensures
      var (after, r) := AfterUpdate(p, id, dto, now);
      && (r == Err(PageNotFound) <==> id !in p.rows)
      && (r == Err(AlreadyExists) <==>
            && id in p.rows
            && exists other :: other in p.rows && other != id
                 && p.rows[other].slug == (if dto.slug.GetOr("") == "" then p.rows[id].slug else dto.slug.value)
                 && p.rows[other].locale == (if dto.locale.GetOr("") == "" then p.rows[id].locale else dto.locale.value)
                 && (p.rows[other].slug != p.rows[id].slug || p.rows[other].locale != p.rows[id].locale))
      && (r == Err(VersionGoesBackwards) ==>
            id in p.rows && dto.version.Some? && Compare(dto.version.value, p.rows[id].version) < 0)
      && (id in p.rows && dto.version.Some? && Compare(dto.version.value, p.rows[id].version) < 0 ==> r.Err?)
      && (r.Err? ==> after == p)
  {
    hide Assigned, Propagated, Compare;
  }

  /** The edited row has what the request names and keeps the rest; a moved version is dated. */
  lemma EditIsWritten(p: Pages, id: PageId, dto: UpdateDto, now: int)
    requires AfterUpdate(p, id, dto, now).1.Ok?
    ensures
      var (after, r) := AfterUpdate(p, id, dto, now);
      && id in p.rows && after.nextId == p.nextId && after.rows.Keys == p.rows.Keys && after.rows[id] == r.value
      && var (was, page) := (p.rows[id], after.rows[id]);
      && page.slug == (if dto.slug.Some? then dto.slug.value else was.slug)
      && page.locale == (if dto.locale.Some? then dto.locale.value else was.locale)
      && page.version == (if dto.version.Some? then dto.version.value else was.version)
      && page.requiresAcceptance ==
           (if dto.requiresAcceptance.Some? then dto.requiresAcceptance.value else was.requiresAcceptance)
      && page.audience == (if dto.audience.Some? then dto.audience.value else was.audience)
      && page.isActive == (if dto.isActive.Some? then dto.isActive.value else was.isActive)
      && page.changeSummary == (if dto.changeSummary.Some? then dto.changeSummary else was.changeSummary)
      && page.publishedAt ==
           (if dto.version.Some? && Compare(dto.version.value, was.version) > 0 then Some(now) else was.publishedAt)
  {
    hide Compare, Clashes;
  }

  /**
   * A newer version of an agreement carries its number, its date and the
   * summary of the request, if it has one, to every other row of the slug. No
   * other edit touches another row, and this one touches nothing else of them.
   */
  lemma EditIsCarried(p: Pages, id: PageId, dto: UpdateDto, now: int, other: PageId)
    requires AfterUpdate(p, id, dto, now).1.Ok? && other in p.rows && other != id
    ensures
      var after := AfterUpdate(p, id, dto, now).0;
      var newer := dto.version.Some? && Compare(dto.version.value, p.rows[id].version) > 0;
      && other in after.rows
      && (newer && after.rows[id].requiresAcceptance && p.rows[other].slug == after.rows[id].slug ==>
            after.rows[other] == p.rows[other].(
              version := dto.version.value, publishedAt := Some(now),
              changeSummary := if dto.changeSummary.Some? then dto.changeSummary else p.rows[other].changeSummary))
      && (!newer || !after.rows[id].requiresAcceptance || p.rows[other].slug != after.rows[id].slug ==>
            after.rows[other] == p.rows[other])
  {
    hide Compare, Clashes;
  }

  /** A deletion takes the row and nothing else. */
  lemma DeletionTakesTheRow(p: Pages, id: PageId)
    ensures
      var (after, r) := AfterDelete(p, id);
      && (r.Ok? <==> id in p.rows)
      && after.nextId == p.nextId && after.rows.Keys == p.rows.Keys - {id}
      && forall other :: other in after.rows ==> after.rows[other] == p.rows[other]
  {
  }
}
