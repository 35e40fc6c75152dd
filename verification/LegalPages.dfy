/**
 * The pages an admin publishes: `createPage`, `updatePage` and `deletePage` of
 * src/modules/static-pages/static-pages.service.ts. A legal document is one slug
 * with a row per locale; its version is meant to be one version, not one per row.
 */
module LegalPages {
  import opened Wrappers
  import opened Text
  import opened Versions

  type PageId = nat

  datatype Audience = Everyone | PersonalOnly | BusinessOnly

  datatype Page = Page(
    slug: string, locale: string, version: string, requiresAcceptance: bool, audience: Audience,
    isActive: bool, publishedAt: Option<int>, changeSummary: Option<string>)

  /** Rows are numbered in the order they were created. */
  datatype Pages = Pages(rows: map<PageId, Page>, nextId: nat)

  datatype CreateDto = CreateDto(
    slug: string, locale: string, version: string, requiresAcceptance: Option<bool>, audience: Option<Audience>,
    isActive: bool, changeSummary: Option<string>)

  datatype UpdateDto = UpdateDto(
    slug: Option<string>, locale: Option<string>, version: Option<string>, requiresAcceptance: Option<bool>,
    audience: Option<Audience>, isActive: Option<bool>, changeSummary: Option<string>)

  datatype Error = PageNotFound | AlreadyExists | VersionGoesBackwards

  const PRIVACY_POLICY := "privacy-policy"
  const TERMS_CONDITIONS := "terms-conditions"

  predicate IsLegalSlug(slug: string) {
    slug == PRIVACY_POLICY || slug == TERMS_CONDITIONS
  }

  /** The rows of a slug numbered below `n`, oldest first. */
  function RowsBelow(rows: map<PageId, Page>, n: nat, slug: string): seq<Page> {
    if n == 0 then []
    else
      RowsBelow(rows, n - 1, slug)
      + if n - 1 in rows && rows[n - 1].slug == slug then [rows[n - 1]] else []
  }

  function Siblings(p: Pages, slug: string): seq<Page> {
    RowsBelow(p.rows, p.nextId, slug)
  }

  function VersionsOf(rows: seq<Page>): (versions: seq<string>)
    ensures |versions| == |rows| && forall i :: 0 <= i < |rows| ==> versions[i] == rows[i].version
  {
    seq(|rows|, i requires 0 <= i < |rows| => rows[i].version)
  }

  /** The version in force for a slug. */
  function Current(p: Pages, slug: string): string {
    MaxVersion(VersionsOf(Siblings(p, slug)))
  }

  predicate Taken(p: Pages, slug: string, locale: string) {
    exists id :: id in p.rows && p.rows[id].slug == slug && p.rows[id].locale == locale
  }

  /** The row `createPage` saves: a new translation joins its document at the version in force. */
  function NewPage(p: Pages, dto: CreateDto, now: int): Page {
    var siblings := Siblings(p, dto.slug);
    var asks := dto.requiresAcceptance.GetOr(
      if siblings != [] then siblings[0].requiresAcceptance else IsLegalSlug(dto.slug));
    Page(
      dto.slug, OrElse(dto.locale, "it"),
      if siblings != [] then MaxVersion(VersionsOf(siblings)) else OrElse(dto.version, "1.0"),
      asks,
      dto.audience.GetOr(if siblings != [] then siblings[0].audience else Everyone),
      dto.isActive,
      if asks then Some(if siblings != [] then siblings[0].publishedAt.GetOr(now) else now) else None,
      dto.changeSummary)
  }

  function AfterCreate(p: Pages, dto: CreateDto, now: int): (Pages, Result<PageId, Error>) {
    if Taken(p, dto.slug, OrElse(dto.locale, "it")) then (p, Err(AlreadyExists))
    else (Pages(p.rows[p.nextId := NewPage(p, dto, now)], p.nextId + 1), Ok(p.nextId))
  }

  function Named(value: Option<string>, default: string): string {
    OrElse(value.GetOr(""), default)
  }

  /** The uniqueness check, made only when the slug or the locale moves. */
  predicate Clashes(p: Pages, id: PageId, dto: UpdateDto)
    requires id in p.rows
  {
    var (slug, locale) := (Named(dto.slug, p.rows[id].slug), Named(dto.locale, p.rows[id].locale));
    && (slug != p.rows[id].slug || locale != p.rows[id].locale)
    && exists other :: other in p.rows && p.rows[other].slug == slug && p.rows[other].locale == locale && other != id
  }

  predicate VersionChanged(p: Pages, id: PageId, dto: UpdateDto)
    requires id in p.rows
  {
    dto.version.Some? && Compare(dto.version.value, p.rows[id].version) != 0
  }

  predicate GoesBackwards(p: Pages, id: PageId, dto: UpdateDto)
    requires id in p.rows
  {
    dto.version.Some? && Compare(dto.version.value, p.rows[id].version) < 0
  }

  /** The row after `Object.assign(page, dto)`. */
  function Assigned(p: Pages, id: PageId, dto: UpdateDto, now: int): Page
    requires id in p.rows
  {
    var page := p.rows[id];
    Page(
      dto.slug.GetOr(page.slug), dto.locale.GetOr(page.locale), dto.version.GetOr(page.version),
      dto.requiresAcceptance.GetOr(page.requiresAcceptance), dto.audience.GetOr(page.audience),
      dto.isActive.GetOr(page.isActive),
      if VersionChanged(p, id, dto) then Some(now) else page.publishedAt,
      if dto.changeSummary.Some? then dto.changeSummary else page.changeSummary)
  }

  /** A new version of an agreement: it is carried across every translation. */
  predicate Publishes(p: Pages, id: PageId, dto: UpdateDto, now: int)
    requires id in p.rows
  {
    VersionChanged(p, id, dto) && Assigned(p, id, dto, now).requiresAcceptance
  }

  /** The bulk update: every other row of the slug. */
  function Propagated(rows: map<PageId, Page>, id: PageId, saved: Page, summary: Option<string>): map<PageId, Page> {
    map other | other in rows ::
      if rows[other].slug == saved.slug && other != id
      then rows[other].(
        version := saved.version, publishedAt := saved.publishedAt,
        changeSummary := if summary.Some? then saved.changeSummary else rows[other].changeSummary)
      else rows[other]
  }

  predicate UpdateAllowed(p: Pages, id: PageId, dto: UpdateDto) {
    id in p.rows && !Clashes(p, id, dto) && !GoesBackwards(p, id, dto)
  }

  function AfterUpdate(p: Pages, id: PageId, dto: UpdateDto, now: int): (Pages, Result<Page, Error>) {
    if id !in p.rows then (p, Err(PageNotFound))
    else if Clashes(p, id, dto) then (p, Err(AlreadyExists))
    else if GoesBackwards(p, id, dto) then (p, Err(VersionGoesBackwards))
    else
      var saved := Assigned(p, id, dto, now);
      var rows := p.rows[id := saved];
      (p.(rows := if Publishes(p, id, dto, now) then Propagated(rows, id, saved, dto.changeSummary) else rows), Ok(saved))
  }

  function AfterDelete(p: Pages, id: PageId): (Pages, Result<(), Error>) {
    if id !in p.rows then (p, Err(PageNotFound)) else (p.(rows := p.rows - {id}), Ok(()))
  }

  /** The service: the rows are rewritten in place. */
  class StaticPagesService {
    var rows: map<PageId, Page>
    var nextId: nat

    constructor ()
      ensures Table() == Pages(map[], 0)
    {
      rows, nextId := map[], 0;
    }

    ghost function Table(): Pages
      reads this
    {
      Pages(rows, nextId)
    }

    method FindSiblings(slug: string) returns (siblings: seq<Page>)
      ensures siblings == Siblings(Table(), slug)
    {
      siblings := [];
      for n := 0 to nextId
        invariant siblings == RowsBelow(rows, n, slug)
      {
        if n in rows && rows[n].slug == slug { siblings := siblings + [rows[n]]; }
      }
    }

    method CreatePage(dto: CreateDto, now: int) returns (r: Result<PageId, Error>)
      modifies this
      ensures (Table(), r) == AfterCreate(old(Table()), dto, now)
    {
      hide RowsBelow;
      var locale := OrElse(dto.locale, "it");
      if id :| id in rows && rows[id].slug == dto.slug && rows[id].locale == locale { return Err(AlreadyExists); }
      var siblings := FindSiblings(dto.slug);
      var asks := dto.requiresAcceptance.GetOr(
        if siblings != [] then siblings[0].requiresAcceptance else IsLegalSlug(dto.slug));
      var page := Page(
        dto.slug, locale,
        if siblings != [] then MaxVersion(VersionsOf(siblings)) else OrElse(dto.version, "1.0"),
        asks,
        dto.audience.GetOr(if siblings != [] then siblings[0].audience else Everyone),
        dto.isActive, None, dto.changeSummary);
      if page.requiresAcceptance {
        page := page.(publishedAt := Some(if siblings != [] then siblings[0].publishedAt.GetOr(now) else now));
      }
      var id := nextId;
      rows, nextId := rows[id := page], nextId + 1;
      return Ok(id);
    }

    method UpdatePage(id: PageId, dto: UpdateDto, now: int) returns (r: Result<Page, Error>)
      modifies this
      ensures (Table(), r) == AfterUpdate(old(Table()), id, dto, now)
    {
      hide Compare, Propagated;
      if id !in rows { return Err(PageNotFound); }
      var page := rows[id];
      var newSlug, newLocale := Named(dto.slug, page.slug), Named(dto.locale, page.locale);
      if newSlug != page.slug || newLocale != page.locale {
        if other :| other in rows && rows[other].slug == newSlug && rows[other].locale == newLocale && other != id {
          return Err(AlreadyExists);
        }
      }
      var versionChanged := false;
      if dto.version.Some? {
        var diff := CompareVersions(dto.version.value, page.version);
        versionChanged := diff != 0;
        if diff < 0 { return Err(VersionGoesBackwards); }
      }
      var saved := Page(
        dto.slug.GetOr(page.slug), dto.locale.GetOr(page.locale), dto.version.GetOr(page.version),
        dto.requiresAcceptance.GetOr(page.requiresAcceptance), dto.audience.GetOr(page.audience),
        dto.isActive.GetOr(page.isActive), page.publishedAt,
        if dto.changeSummary.Some? then dto.changeSummary else page.changeSummary);
      if versionChanged { saved := saved.(publishedAt := Some(now)); }
      rows := rows[id := saved];
      if versionChanged && saved.requiresAcceptance {
        rows := Propagated(rows, id, saved, dto.changeSummary);
      }
      return Ok(saved);
    }

    method DeletePage(id: PageId) returns (r: Result<(), Error>)
      modifies this
      ensures (Table(), r) == AfterDelete(old(Table()), id)
    {
      if id !in rows { return Err(PageNotFound); }
      rows := rows - {id};
      return Ok(());
    }
  }
}
