/**
 * The consent gate read off the page rows and the ledger alone: which account is
 * asked for which document, and what an acceptance leaves behind.
 */
module WhoIsAsked {
  import opened Wrappers
  import opened InsertionOrder
  import opened Sorting
  import opened Versions
  import opened LegalPages
  import opened DocumentVersions
  import opened ConsentGate

  /** A row that asks this account for its consent. */
  predicate Asks(page: Page, role: Role) {
    && page.isActive && page.requiresAcceptance
    && (|| (role == PersonalAccount && page.audience != BusinessOnly)
        || (role == BusinessAccount && page.audience != PersonalOnly))
  }

  predicate IsAskingRow(p: Pages, id: PageId, role: Role, slug: string) {
    id in p.rows && p.rows[id].slug == slug && Asks(p.rows[id], role)
  }

  predicate IsAsked(p: Pages, role: Role, slug: string) {
    exists id :: id in p.rows && IsAskingRow(p, id, role, slug)
  }

  lemma BindsIsAsks(page: Page, role: Role)
    ensures role != Admin ==> (Binds(page, role) <==> Asks(page, role))
    ensures !Asks(page, Admin)
  {
  }

  lemma BindingAsks(p: Pages, role: Role, page: Page)
    requires Valid(p) && role != Admin
    ensures page in Binding(p, role) <==> exists id :: id in p.rows && p.rows[id] == page && Asks(page, role)
  {
    BindingHas(p.rows, p.nextId, role, page);
    BindsIsAsks(page, role);
    hide Binds, Asks;
  }

  lemma BoundIsAsked(p: Pages, role: Role, slug: string)
    requires Valid(p)
    ensures BindsSlug(p, role, slug) <==> IsAsked(p, role, slug)
  {
    hide Binding, Asks;
    if role == Admin {
      forall id | id in p.rows ensures !IsAskingRow(p, id, role, slug) {
        BindsIsAsks(p.rows[id], role);
      }
    } else {
      forall page ensures page in Binding(p, role) <==>
          exists id :: id in p.rows && p.rows[id] == page && Asks(page, role) {
        BindingAsks(p, role, page);
      }
      if IsAsked(p, role, slug) {
        var id :| id in p.rows && IsAskingRow(p, id, role, slug);
        assert p.rows[id] in Binding(p, role);
      }
      if BindsSlug(p, role, slug) {
        var page :| page in Binding(p, role) && page.slug == slug;
        var id :| id in p.rows && p.rows[id] == page && Asks(page, role);
        assert IsAskingRow(p, id, role, slug);
      }
    }
  }

  /** The version asked for is that of an asking row, and no asking row is newer. */
  lemma AskedVersion(p: Pages, role: Role, slug: string)
    requires Valid(p) && IsAsked(p, role, slug) && role != Admin
    ensures exists id :: id in p.rows && IsAskingRow(p, id, role, slug) && p.rows[id].version == CurrentFor(p, role, slug)
    ensures forall id :: id in p.rows && IsAskingRow(p, id, role, slug) ==>
      Compare(p.rows[id].version, CurrentFor(p, role, slug)) <= 0
  {
    hide Compare, MaxVersion, Binding, Asks;
    var own := Filter(Binding(p, role), OfSlug(slug));
    var versions := VersionsOf(own);
    forall page
      ensures page in own <==> page.slug == slug && exists id :: id in p.rows && p.rows[id] == page && Asks(page, role)
    {
      BindingAsks(p, role, page);
    }
    hide Filter;
    forall id | id in p.rows && IsAskingRow(p, id, role, slug)
      ensures Compare(p.rows[id].version, CurrentFor(p, role, slug)) <= 0
      ensures CurrentFor(p, role, slug) in versions
    {
      assert p.rows[id] in own;
      var k :| 0 <= k < |own| && own[k] == p.rows[id];
      assert versions[k] in versions;
      MaxVersionIsNewest(versions, p.rows[id].version);
    }
    var k :| 0 <= k < |versions| && versions[k] == CurrentFor(p, role, slug);
    assert own[k] in own;
    var id :| id in p.rows && p.rows[id] == own[k] && Asks(own[k], role);
    assert IsAskingRow(p, id, role, slug);
  }

  // ----- What is shown -----

  /**
   * Whatever a status shows is a row of the table that asks this account: active, asking
   * for acceptance, and never meant for the other kind of account. Its version is the
   * newest such row's.
   */
  lemma ShownPageAsks(p: Pages, ledger: seq<Acceptance>, u: UserId, role: Role, locale: string, onlyPending: bool,
      s: DocumentStatus)
    requires Valid(p) && s in DocumentStatuses(p, ledger, u, role, locale, onlyPending)
    ensures exists id :: id in p.rows && p.rows[id] == s.page && IsAskingRow(p, id, role, s.slug)
    ensures exists id :: id in p.rows && IsAskingRow(p, id, role, s.slug) && p.rows[id].version == s.version
    ensures forall id :: id in p.rows && IsAskingRow(p, id, role, s.slug) ==> Compare(p.rows[id].version, s.version) <= 0
  {
    hide Compare, Binding, CurrentFor, Asks, HasAccepted;
    assert role != Admin;
    StatusIsListed(p, ledger, u, role, locale, onlyPending, s);
    ShownInTheLanguageAskedFor(p, ledger, u, role, locale, onlyPending, s);
    BindingAsks(p, role, s.page);
    BoundIsAsked(p, role, s.slug);
    AskedVersion(p, role, s.slug);
    hide DocumentStatuses;
  }

  /** Its state is that of the user's own acceptances: none, none new enough, or one that is. */
  lemma StateIsOfTheLedger(p: Pages, ledger: seq<Acceptance>, u: UserId, role: Role, locale: string, onlyPending: bool,
      s: DocumentStatus)
    requires s in DocumentStatuses(p, ledger, u, role, locale, onlyPending)
    ensures s.state == NeverAccepted <==> forall a :: a in ledger && a.userId == u ==> a.slug != s.slug
    ensures s.state == UpToDate <==>
      exists a :: a in ledger && a.userId == u && a.slug == s.slug && Compare(a.version, s.version) >= 0
    ensures s.accepted.None? <==> s.state == NeverAccepted
    ensures s.accepted.Some? ==>
      && s.accepted.value in ledger && s.accepted.value.userId == u && s.accepted.value.slug == s.slug
      && forall a :: a in ledger && a.userId == u && a.slug == s.slug ==>
           Compare(a.version, s.accepted.value.version) <= 0
  {
    StatusIsListed(p, ledger, u, role, locale, onlyPending, s);
    var rows := Binding(p, role);
    var slugs := AddAll([], SlugsOf(rows));
    var list := Query(ledger, u, slugs);
    StatusesHas(rows, list, slugs, locale, onlyPending, s);
    LatestIsNewest(list, s.slug);
    assert forall a :: a in list <==> a in ledger && Wanted(a, u, slugs);
    assert s.accepted == LatestOf(list, s.slug) && s.state == StateOf(s.accepted, s.version);
    hide DocumentStatuses, Statuses, Query, LatestOf, Compare, Binding, AddAll, StatusOf;
  }

  /** Listed at all: the documents some row asks this account for. */
  lemma ListedIff(p: Pages, ledger: seq<Acceptance>, u: UserId, role: Role, locale: string, slug: string)
    requires Valid(p)
    ensures (exists s :: s in DocumentStatuses(p, ledger, u, role, locale, false) && s.slug == slug) <==>
      IsAsked(p, role, slug)
  {
    BoundIsAsked(p, role, slug);
    hide DocumentStatuses, IsAsked, BindsSlug;
    if BindsSlug(p, role, slug) { BoundIsListed(p, ledger, u, role, locale, slug); }
    if s :| s in DocumentStatuses(p, ledger, u, role, locale, false) && s.slug == slug {
      StatusIsListed(p, ledger, u, role, locale, false, s);
    }
  }

  /** The gate asks for what some row asks for and every acceptance of is older than some asking row. */
  lemma AskedIff(p: Pages, ledger: seq<Acceptance>, u: UserId, role: Role, locale: string, slug: string)
    requires Valid(p)
    ensures (exists s :: s in DocumentStatuses(p, ledger, u, role, locale, true) && s.slug == slug) <==>
      && IsAsked(p, role, slug)
      && forall a :: a in ledger && a.userId == u && a.slug == slug ==>
           exists id :: id in p.rows && IsAskingRow(p, id, role, slug) && Compare(a.version, p.rows[id].version) < 0
  {
    GateAsksExactlyForPending(p, ledger, u, role, locale, slug);
    BoundIsAsked(p, role, slug);
    hide DocumentStatuses, IsAsked, BindsSlug, Compare, Asks, CurrentFor;
    if IsAsked(p, role, slug) {
      assert role != Admin by { NobodyAsksAdmins(p, slug); }
      forall a | a in ledger && a.userId == u && a.slug == slug
        ensures Compare(a.version, CurrentFor(p, role, slug)) < 0 <==>
          exists id :: id in p.rows && IsAskingRow(p, id, role, slug) && Compare(a.version, p.rows[id].version) < 0
      {
        OlderThanSomeRow(p, role, slug, a.version);
      }
    }
  }

  lemma OlderThanSomeRow(p: Pages, role: Role, slug: string, version: string)
    requires Valid(p) && role != Admin && IsAsked(p, role, slug)
    ensures Compare(version, CurrentFor(p, role, slug)) < 0 <==>
      exists id :: id in p.rows && IsAskingRow(p, id, role, slug) && Compare(version, p.rows[id].version) < 0
  {
    hide Compare, Asks, CurrentFor, IsAsked;
    AskedVersion(p, role, slug);
    var current := CurrentFor(p, role, slug);
    var newest :| newest in p.rows && IsAskingRow(p, newest, role, slug) && p.rows[newest].version == current;
    if id :| id in p.rows && IsAskingRow(p, id, role, slug) && Compare(version, p.rows[id].version) < 0 {
      CompareChains(version, p.rows[id].version, current);
    }
  }

  lemma NobodyAsksAdmins(p: Pages, slug: string)
    ensures !IsAsked(p, Admin, slug)
  {
  }

  /** An account that accepted nothing yet is asked for exactly the documents with an asking row. */
  lemma NewAccountIsAsked(p: Pages, ledger: seq<Acceptance>, u: UserId, role: Role, locale: string, slug: string)
    requires Valid(p) && forall a :: a in ledger ==> a.userId != u
    ensures (exists s :: s in DocumentStatuses(p, ledger, u, role, locale, true) && s.slug == slug) <==>
      IsAsked(p, role, slug)
  {
    AskedIff(p, ledger, u, role, locale, slug);
    hide DocumentStatuses, IsAsked, Compare;
  }

  /** A page for everyone asks both kinds of account, one for a single kind that kind alone, and none an admin. */
  lemma AudienceDecides(p: Pages, id: PageId)
    requires Valid(p) && id in p.rows && p.rows[id].isActive && p.rows[id].requiresAcceptance
    ensures p.rows[id].audience == Everyone ==>
      IsAsked(p, PersonalAccount, p.rows[id].slug) && IsAsked(p, BusinessAccount, p.rows[id].slug)
    ensures p.rows[id].audience == PersonalOnly ==> IsAsked(p, PersonalAccount, p.rows[id].slug)
    ensures p.rows[id].audience == BusinessOnly ==> IsAsked(p, BusinessAccount, p.rows[id].slug)
    ensures !IsAsked(p, Admin, p.rows[id].slug)
  {
    var slug := p.rows[id].slug;
    assert IsAskingRow(p, id, PersonalAccount, slug) || p.rows[id].audience == BusinessOnly;
    assert IsAskingRow(p, id, BusinessAccount, slug) || p.rows[id].audience == PersonalOnly;
    NobodyAsksAdmins(p, slug);
  }

  // ----- What is accepted and recorded -----

  /** Acceptable: asked for, at a version no asking row is newer than and one is equal to. */
  lemma AcceptableItem(p: Pages, role: Role, item: Item)
    requires Valid(p)
    ensures IsCurrent(p, role, item) <==>
      && (exists id :: id in p.rows && IsAskingRow(p, id, role, item.slug)
            && Compare(item.version, p.rows[id].version) == 0)
      && (forall id :: id in p.rows && IsAskingRow(p, id, role, item.slug) ==>
            Compare(p.rows[id].version, item.version) <= 0)
  {
    BoundIsAsked(p, role, item.slug);
    hide BindsSlug, Compare, Asks;
    if IsAsked(p, role, item.slug) {
      assert role != Admin by { NobodyAsksAdmins(p, item.slug); }
      AskedVersion(p, role, item.slug);
      var current := CurrentFor(p, role, item.slug);
      hide CurrentFor;
      var newest :| newest in p.rows && IsAskingRow(p, newest, role, item.slug) && p.rows[newest].version == current;
      CompareFlips(item.version, current);
      forall id | id in p.rows && IsAskingRow(p, id, role, item.slug)
        ensures Compare(item.version, current) == 0 ==> Compare(p.rows[id].version, item.version) <= 0
        ensures Compare(item.version, p.rows[id].version) == 0 && Compare(current, item.version) <= 0 ==>
          Compare(item.version, current) == 0
      {
        CompareFlips(item.version, p.rows[id].version);
        if Compare(item.version, current) == 0 { CompareChains(p.rows[id].version, current, item.version); }
        if Compare(item.version, p.rows[id].version) == 0 {
          CompareChains(item.version, p.rows[id].version, current);
        }
      }
    } else {
      forall id | id in p.rows ensures !IsAskingRow(p, id, role, item.slug) {
      }
    }
  }

  /** A refusal names the documents nobody asked this account for, or those at another version. */
  lemma {:induction false} RefusalNames(p: Pages, role: Role, items: seq<Item>, slug: string)
    ensures slug in Unknown(p, role, items) <==> exists i :: i in items && i.slug == slug && !BindsSlug(p, role, slug)
    ensures slug in Stale(p, role, items) <==>
      exists i :: i in items && i.slug == slug && BindsSlug(p, role, slug) && !IsCurrent(p, role, i)
  {
    hide BindsSlug, CurrentFor, Compare;
    if items != [] {
      var front, last := items[..|items| - 1], items[|items| - 1];
      RefusalNames(p, role, front, slug);
      assert items == front + [last];
      assert last in items && forall i :: i in items <==> i in front || i == last;
    }
  }

  /** What is added: the user's row of an item, at the moment of the call, in Italian where no language was sent. */
  lemma AddedRowsAre(ledger: seq<Acceptance>, u: UserId, items: seq<Item>, now: int, a: Acceptance)
    requires a in Recorded(ledger, u, items, now) && a !in ledger
    ensures a.userId == u && a.acceptedAt == now
    ensures exists i :: (i in items && a.slug == i.slug && a.version == i.version &&
      a.locale == if i.locale == "" then "it" else i.locale)
  {
    RecordingOnlyAppends(ledger, u, items, now);
    hide Recorded;
    var i :| i in items && a == RowFor(u, i, now);
  }
}
