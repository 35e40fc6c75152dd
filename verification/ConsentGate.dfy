/**
 * The consent gate of src/modules/legal/legal.service.ts: where a user stands on
 * every agreement that binds their account, and the append-only ledger of what
 * they accepted.
 */
module ConsentGate {
  import opened Wrappers
  import opened Text
  import opened InsertionOrder
  import opened Sorting
  import opened Versions
  import opened LegalPages

  type UserId = nat

  datatype Role = PersonalAccount | BusinessAccount | Admin

  /** One row per (user, document, version). */
  datatype Acceptance = Acceptance(userId: UserId, slug: string, version: string, locale: string, acceptedAt: int)

  datatype Item = Item(slug: string, version: string, locale: string)

  datatype DocumentState = NeverAccepted | UpdateRequired | UpToDate

  datatype DocumentStatus = DocumentStatus(
    slug: string, version: string, page: Page, accepted: Option<Acceptance>, state: DocumentState)

  datatype Error = NotForThisAccount(slugs: seq<string>) | OutOfDate(slugs: seq<string>)

  const DEFAULT_LOCALE := "it"

  // ----- Which documents bind an account -----

  predicate InAudience(audience: Audience, role: Role) {
    audience == Everyone || (if role == BusinessAccount then audience == BusinessOnly else audience == PersonalOnly)
  }

  predicate Binds(page: Page, role: Role) {
    page.isActive && page.requiresAcceptance && InAudience(page.audience, role)
  }

  function BindingBelow(rows: map<PageId, Page>, n: nat, role: Role): seq<Page> {
    if n == 0 then []
    else BindingBelow(rows, n - 1, role) + if n - 1 in rows && Binds(rows[n - 1], role) then [rows[n - 1]] else []
  }

  function Binding(p: Pages, role: Role): seq<Page> {
    BindingBelow(p.rows, p.nextId, role)
  }

  function OfSlug(slug: string): Page -> bool {
    (page: Page) => page.slug == slug
  }

  function SlugsOf(rows: seq<Page>): (slugs: seq<string>)
    ensures |slugs| == |rows| && forall i :: 0 <= i < |rows| ==> slugs[i] == rows[i].slug
  {
    seq(|rows|, i requires 0 <= i < |rows| => rows[i].slug)
  }

  /** `rows.find(row => row.locale === locale)` */
  function FindLocale(rows: seq<Page>, locale: string): Option<Page> {
    if rows == [] then None
    else if rows[0].locale == locale then Some(rows[0])
    else FindLocale(rows[1..], locale)
  }

  function PickLocale(rows: seq<Page>, locale: string): Page
    requires rows != []
  {
    FindLocale(rows, locale).GetOr(FindLocale(rows, DEFAULT_LOCALE).GetOr(rows[0]))
  }

  /** The version a user must have accepted: the newest across the rows that bind them. */
  function CurrentFor(p: Pages, role: Role, slug: string): string {
    MaxVersion(VersionsOf(Filter(Binding(p, role), OfSlug(slug))))
  }

  // ----- What a user has accepted -----

  predicate Wanted(a: Acceptance, u: UserId, slugs: seq<string>) {
    a.userId == u && a.slug in slugs
  }

  function AcceptedBy(u: UserId, slugs: seq<string>): Acceptance -> bool {
    (a: Acceptance) => Wanted(a, u, slugs)
  }

  /** `ORDER BY accepted_at ASC` */
  function OldestFirst(): (Acceptance, Acceptance) -> bool {
    (a: Acceptance, b: Acceptance) => a.acceptedAt <= b.acceptedAt
  }

  function Query(ledger: seq<Acceptance>, u: UserId, slugs: seq<string>): seq<Acceptance> {
    StableSort(Filter(ledger, AcceptedBy(u, slugs)), OldestFirst())
  }

  /** Whether an acceptance replaces the best one so far of its slug. */
  predicate Better(best: Option<Acceptance>, a: Acceptance) {
    best.None? || Compare(a.version, best.value.version) > 0
  }

  /** Of all the versions of a slug the user accepted, the newest. */
  function LatestOf(list: seq<Acceptance>, slug: string): Option<Acceptance> {
    if list == [] then None
    else
      var best := LatestOf(list[..|list| - 1], slug);
      var a := list[|list| - 1];
      if a.slug == slug && Better(best, a) then Some(a) else best
  }

  function StateOf(accepted: Option<Acceptance>, current: string): DocumentState {
    if accepted.None? then NeverAccepted
    else if Compare(accepted.value.version, current) < 0 then UpdateRequired
    else UpToDate
  }

  /** The status of one document, from its locale rows and the best acceptance of it. */
  function StatusFrom(own: seq<Page>, accepted: Option<Acceptance>, slug: string, locale: string): DocumentStatus
    requires own != []
  {
    var current := MaxVersion(VersionsOf(own));
    DocumentStatus(slug, current, PickLocale(own, locale), accepted, StateOf(accepted, current))
  }

  lemma HasOwnRows(rows: seq<Page>, slug: string)
    requires slug in SlugsOf(rows)
    ensures Filter(rows, OfSlug(slug)) != []
  {
    var i :| 0 <= i < |rows| && SlugsOf(rows)[i] == slug;
    assert rows[i] in rows && rows[i] in Filter(rows, OfSlug(slug));
  }

  function StatusOf(rows: seq<Page>, list: seq<Acceptance>, slug: string, locale: string): DocumentStatus
    requires slug in SlugsOf(rows)
  {
    HasOwnRows(rows, slug);
    StatusFrom(Filter(rows, OfSlug(slug)), LatestOf(list, slug), slug, locale)
  }

  /** The statuses in the order the slugs were first seen. */
  function Statuses(rows: seq<Page>, list: seq<Acceptance>, slugs: seq<string>, locale: string,
      onlyPending: bool): seq<DocumentStatus>
    requires forall slug :: slug in slugs ==> slug in SlugsOf(rows)
  {
    if slugs == [] then []
    else
      assert slugs[|slugs| - 1] in slugs;
      var s := StatusOf(rows, list, slugs[|slugs| - 1], locale);
      Statuses(rows, list, slugs[..|slugs| - 1], locale, onlyPending) + if onlyPending && s.state == UpToDate then [] else [s]
  }

  lemma NoStatuses(rows: seq<Page>, list: seq<Acceptance>, slugs: seq<string>, locale: string, onlyPending: bool)
    ensures Statuses(rows, list, slugs[..0], locale, onlyPending) == []
  {
  }

  lemma StatusesStep(rows: seq<Page>, list: seq<Acceptance>, slugs: seq<string>, i: nat, locale: string,
      onlyPending: bool)
    requires i < |slugs| && forall slug :: slug in slugs ==> slug in SlugsOf(rows)
    ensures
      var s := StatusOf(rows, list, slugs[i], locale);
      Statuses(rows, list, slugs[..i + 1], locale, onlyPending)
      == Statuses(rows, list, slugs[..i], locale, onlyPending) + if onlyPending && s.state == UpToDate then [] else [s]
  {
    hide SlugsOf, StatusOf;
    var front := slugs[..i + 1];
    assert front[..|front| - 1] == slugs[..i] && front[|front| - 1] == slugs[i];
  }

  function Rank(slug: string): nat {
    if slug == PRIVACY_POLICY then 0 else if slug == TERMS_CONDITIONS then 1 else 2
  }

  function BySlugOrder(): (DocumentStatus, DocumentStatus) -> bool {
    (a: DocumentStatus, b: DocumentStatus) => Rank(a.slug) <= Rank(b.slug)
  }

  /** `getDocumentStatuses` */
  function DocumentStatuses(
    p: Pages, ledger: seq<Acceptance>, u: UserId, role: Role, locale: string, onlyPending: bool): seq<DocumentStatus>
  {
    var rows := Binding(p, role);
    if role == Admin then []
    else
      var slugs := AddAll([], SlugsOf(rows));
      StableSort(Statuses(rows, Query(ledger, u, slugs), slugs, locale, onlyPending), BySlugOrder())
  }

  // ----- What the statuses say -----

  predicate BindsSlug(p: Pages, role: Role, slug: string) {
    role != Admin && exists page :: page in Binding(p, role) && page.slug == slug
  }

  /** The user holds an acceptance at least as new as `version`. */
  predicate HasAccepted(ledger: seq<Acceptance>, u: UserId, slug: string, version: string) {
    exists a :: a in ledger && a.userId == u && a.slug == slug && Compare(a.version, version) >= 0
  }

  predicate IsPending(p: Pages, ledger: seq<Acceptance>, u: UserId, role: Role, slug: string) {
    BindsSlug(p, role, slug) && !HasAccepted(ledger, u, slug, CurrentFor(p, role, slug))
  }

  lemma {:induction false} LatestIsNewest(list: seq<Acceptance>, slug: string)
    ensures
      var best := LatestOf(list, slug);
      && (best.None? <==> forall a :: a in list ==> a.slug != slug)
      && (best.Some? ==> best.value in list && best.value.slug == slug
                         && forall a :: a in list && a.slug == slug ==> Compare(a.version, best.value.version) <= 0)
  {
    hide Compare;
    if list != [] {
      var front, last := list[..|list| - 1], list[|list| - 1];
      LatestIsNewest(front, slug);
      assert list == front + [last];
      assert forall a :: a in list <==> a in front || a == last;
      assert last in list;
      CompareSelf(last.version);
      var best := LatestOf(front, slug);
      if best.Some? && last.slug == slug && Compare(last.version, best.value.version) > 0 {
        CompareFlips(last.version, best.value.version);
        forall a | a in front && a.slug == slug ensures Compare(a.version, last.version) <= 0 {
          CompareChains(a.version, best.value.version, last.version);
        }
      }
    }
  }

  /** A document is settled exactly when the user holds an acceptance that is new enough. */
  lemma SettledIff(ledger: seq<Acceptance>, u: UserId, slugs: seq<string>, slug: string, current: string)
    requires slug in slugs
    ensures StateOf(LatestOf(Query(ledger, u, slugs), slug), current) == UpToDate <==> HasAccepted(ledger, u, slug, current)
  {
    var list := Query(ledger, u, slugs);
    assert forall a :: a in list <==> a in ledger && Wanted(a, u, slugs);
    hide Query, LatestOf, Compare;
    LatestIsNewest(list, slug);
    var best := LatestOf(list, slug);
    if best.Some? {
      CompareFlips(best.value.version, current);
      forall a | a in ledger && a.userId == u && a.slug == slug && Compare(a.version, current) >= 0
        ensures Compare(best.value.version, current) >= 0
      {
        assert a in list;
        CompareFlips(a.version, current);
        CompareChains(current, a.version, best.value.version);
      }
    }
  }

  lemma {:induction false} StatusesHas(
    rows: seq<Page>, list: seq<Acceptance>, slugs: seq<string>, locale: string, onlyPending: bool, s: DocumentStatus)
    requires forall slug :: slug in slugs ==> slug in SlugsOf(rows)
    ensures s in Statuses(rows, list, slugs, locale, onlyPending) <==>
            s.slug in slugs && s == StatusOf(rows, list, s.slug, locale) && !(onlyPending && s.state == UpToDate)
  {
    hide StatusOf;
    if slugs != [] {
      var front, last := slugs[..|slugs| - 1], slugs[|slugs| - 1];
      assert last in slugs;
      StatusesHas(rows, list, front, locale, onlyPending, s);
      assert slugs == front + [last];
      StatusNamesSlug(rows, list, last, locale);
    }
  }

  lemma StatusNamesSlug(rows: seq<Page>, list: seq<Acceptance>, slug: string, locale: string)
    requires slug in SlugsOf(rows)
    ensures StatusOf(rows, list, slug, locale).slug == slug
  {
  }

  lemma SlugIsBound(p: Pages, role: Role, slug: string)
    ensures slug in SlugsOf(Binding(p, role)) <==> exists page :: page in Binding(p, role) && page.slug == slug
  {
    hide Binding;
    var rows := Binding(p, role);
    if slug in SlugsOf(rows) {
      var i :| 0 <= i < |rows| && SlugsOf(rows)[i] == slug;
      assert rows[i] in rows;
    }
    if page :| page in rows && page.slug == slug {
      var i :| 0 <= i < |rows| && rows[i] == page;
      assert SlugsOf(rows)[i] == slug;
    }
  }

  /** A status is listed exactly for each document that binds the account, at the version in force. */
  lemma StatusIsListed(p: Pages, ledger: seq<Acceptance>, u: UserId, role: Role, locale: string, onlyPending: bool,
      s: DocumentStatus)
    requires s in DocumentStatuses(p, ledger, u, role, locale, onlyPending)
    ensures BindsSlug(p, role, s.slug) && s.version == CurrentFor(p, role, s.slug)
    ensures s.state == UpToDate <==> HasAccepted(ledger, u, s.slug, s.version)
    ensures onlyPending ==> s.state != UpToDate
  {
    hide Binding, HasAccepted, StateOf, LatestOf;
    var rows := Binding(p, role);
    var slugs := AddAll([], SlugsOf(rows));
    StatusesHas(rows, Query(ledger, u, slugs), slugs, locale, onlyPending, s);
    hide Statuses, Query;
    SlugIsBound(p, role, s.slug);
    SettledIff(ledger, u, slugs, s.slug, s.version);
  }

  /** The gate asks for a document exactly when it binds the account and no acceptance is new enough. */
  lemma GateAsksExactlyForPending(p: Pages, ledger: seq<Acceptance>, u: UserId, role: Role, locale: string,
      slug: string)
    ensures IsPending(p, ledger, u, role, slug) <==>
            exists s :: s in DocumentStatuses(p, ledger, u, role, locale, true) && s.slug == slug
  {
    hide Binding, HasAccepted, LatestOf;
    if IsPending(p, ledger, u, role, slug) {
      var rows := Binding(p, role);
      var slugs := AddAll([], SlugsOf(rows));
      SlugIsBound(p, role, slug);
      var s := StatusOf(rows, Query(ledger, u, slugs), slug, locale);
      SettledIff(ledger, u, slugs, slug, s.version);
      hide Query, StateOf;
      StatusesHas(rows, Query(ledger, u, slugs), slugs, locale, true, s);
      hide Statuses, StatusOf;
      assert s in DocumentStatuses(p, ledger, u, role, locale, true);
    }
    hide DocumentStatuses;
    forall s | s in DocumentStatuses(p, ledger, u, role, locale, true) && s.slug == slug
      ensures IsPending(p, ledger, u, role, slug)
    {
      StatusIsListed(p, ledger, u, role, locale, true, s);
    }
  }

  lemma {:induction false} FindLocaleIs(rows: seq<Page>, locale: string)
    ensures FindLocale(rows, locale).Some? <==> exists page :: page in rows && page.locale == locale
    ensures
      var found := FindLocale(rows, locale);
      found.Some? ==> found.value in rows && found.value.locale == locale
  {
    if rows != [] && rows[0].locale != locale {
      FindLocaleIs(rows[1..], locale);
      assert rows == [rows[0]] + rows[1..];
    }
  }

  /** Bound text is shown: in the language asked for if it is in force there, else in Italian if it is. */
  lemma ShownInTheLanguageAskedFor(p: Pages, ledger: seq<Acceptance>, u: UserId, role: Role, locale: string,
      onlyPending: bool, s: DocumentStatus)
    requires s in DocumentStatuses(p, ledger, u, role, locale, onlyPending)
    ensures s.page in Binding(p, role) && s.page.slug == s.slug
    ensures forall page :: page in Binding(p, role) && page.slug == s.slug && page.locale == locale ==>
        s.page.locale == locale
    ensures forall page :: page in Binding(p, role) && page.slug == s.slug && page.locale == DEFAULT_LOCALE ==>
              s.page.locale == locale || s.page.locale == DEFAULT_LOCALE
  {
    hide Binding, StateOf, LatestOf, FindLocale;
    var rows := Binding(p, role);
    var slugs := AddAll([], SlugsOf(rows));
    StatusesHas(rows, Query(ledger, u, slugs), slugs, locale, onlyPending, s);
    hide Statuses, Query;
    var own := Filter(rows, OfSlug(s.slug));
    HasOwnRows(rows, s.slug);
    FindLocaleIs(own, locale);
    FindLocaleIs(own, DEFAULT_LOCALE);
    assert own[0] in own;
  }

  /** The privacy policy comes before the terms, and those before everything else. */
  lemma StatusesAreInOrder(p: Pages, ledger: seq<Acceptance>, u: UserId, role: Role, locale: string,
      onlyPending: bool, i: nat, j: nat)
    requires var statuses := DocumentStatuses(p, ledger, u, role, locale, onlyPending); i < j < |statuses|
    ensures
      var statuses := DocumentStatuses(p, ledger, u, role, locale, onlyPending);
      && (statuses[j].slug == "privacy-policy" ==> statuses[i].slug == "privacy-policy")
      && (statuses[j].slug == "terms-conditions" ==> statuses[i].slug in {"privacy-policy", "terms-conditions"})
  {
    var rows := Binding(p, role);
    var slugs := AddAll([], SlugsOf(rows));
    hide Rank, Binding, Statuses, Query, StableSort;
    SortSorts(Statuses(rows, Query(ledger, u, slugs), slugs, locale, onlyPending), BySlugOrder());
    var statuses := DocumentStatuses(p, ledger, u, role, locale, onlyPending);
    assert BySlugOrder()(statuses[i], statuses[j]);
    RankTells(statuses[i].slug, statuses[j].slug);
  }

  lemma RankTells(a: string, b: string)
    requires Rank(a) <= Rank(b)
    ensures b == "privacy-policy" ==> a == "privacy-policy"
    ensures b == "terms-conditions" ==> a in {"privacy-policy", "terms-conditions"}
  {
    assert |PRIVACY_POLICY| != |TERMS_CONDITIONS|;
  }

  lemma BoundIsListed(p: Pages, ledger: seq<Acceptance>, u: UserId, role: Role, locale: string, slug: string)
    requires BindsSlug(p, role, slug)
    ensures exists s :: s in DocumentStatuses(p, ledger, u, role, locale, false) && s.slug == slug
  {
    hide Binding, LatestOf, StateOf;
    var rows := Binding(p, role);
    var slugs := AddAll([], SlugsOf(rows));
    SlugIsBound(p, role, slug);
    var list := Query(ledger, u, slugs);
    var s := StatusOf(rows, list, slug, locale);
    hide Query;
    StatusesHas(rows, list, slugs, locale, false, s);
    hide Statuses, StatusOf;
    assert s in DocumentStatuses(p, ledger, u, role, locale, false);
  }

  // ----- Recording consent -----

  predicate Holds(ledger: seq<Acceptance>, u: UserId, item: Item) {
    exists a :: a in ledger && a.userId == u && a.slug == item.slug && a.version == item.version
  }

  function RowFor(u: UserId, item: Item, now: int): Acceptance {
    Acceptance(u, item.slug, item.version, OrElse(item.locale, DEFAULT_LOCALE), now)
  }

  /** Insert or ignore, one item after another. */
  function Recorded(ledger: seq<Acceptance>, u: UserId, items: seq<Item>, now: int): seq<Acceptance>
    decreases |items|
  {
    if items == [] then ledger
    else Recorded(if Holds(ledger, u, items[0]) then ledger else ledger + [RowFor(u, items[0], now)], u, items[1..], now)
  }

  /** Accepting again changes nothing that was recorded: every earlier row, with its timestamp, stays. */
  lemma {:induction false} RecordingOnlyAppends(ledger: seq<Acceptance>, u: UserId, items: seq<Item>, now: int)
    ensures ledger <= Recorded(ledger, u, items, now)
    ensures forall a :: a in Recorded(ledger, u, items, now) ==>
        a in ledger || exists i :: i in items && a == RowFor(u, i, now)
    ensures forall i :: i in items ==> Holds(Recorded(ledger, u, items, now), u, i)
    decreases |items|
  {
    hide RowFor;
    if items != [] {
      var item := items[0];
      var next := if Holds(ledger, u, item) then ledger else ledger + [RowFor(u, item, now)];
      RecordingOnlyAppends(next, u, items[1..], now);
      var after := Recorded(ledger, u, items, now);
      assert next <= after;
      NextHolds(ledger, u, item, now);
      HoldsGrows(next, after, u, item);
      assert items == [item] + items[1..];
    }
  }

  lemma NextHolds(ledger: seq<Acceptance>, u: UserId, item: Item, now: int)
    ensures Holds(if Holds(ledger, u, item) then ledger else ledger + [RowFor(u, item, now)], u, item)
  {
    var row := RowFor(u, item, now);
    assert row in ledger + [row];
  }

  lemma HoldsGrows(ledger: seq<Acceptance>, after: seq<Acceptance>, u: UserId, item: Item)
    requires ledger <= after
    ensures Holds(ledger, u, item) ==> Holds(after, u, item)
  {
    assert forall a :: a in ledger ==> a in after;
  }

  /** The index on (user, document, version) stays unique. */
  predicate OneRowEach(ledger: seq<Acceptance>) {
    forall i, j :: 0 <= i < j < |ledger| ==> !SameKey(ledger[i], ledger[j])
  }

  predicate SameKey(a: Acceptance, b: Acceptance) {
    a.userId == b.userId && a.slug == b.slug && a.version == b.version
  }

  lemma {:induction false} RecordingKeepsTheIndex(ledger: seq<Acceptance>, u: UserId, items: seq<Item>, now: int)
    requires OneRowEach(ledger)
    ensures OneRowEach(Recorded(ledger, u, items, now))
    decreases |items|
  {
    if items != [] {
      var row := RowFor(u, items[0], now);
      if Holds(ledger, u, items[0]) {
        RecordingKeepsTheIndex(ledger, u, items[1..], now);
      } else {
        assert forall i :: 0 <= i < |ledger| ==> ledger[i] in ledger;
        RecordingKeepsTheIndex(ledger + [row], u, items[1..], now);
      }
    }
  }

  /** The slugs an acceptance names that do not bind the account. */
  function Unknown(p: Pages, role: Role, items: seq<Item>): seq<string> {
    if items == [] then []
    else
      var last := items[|items| - 1];
      Unknown(p, role, items[..|items| - 1]) + if BindsSlug(p, role, last.slug) then [] else [last.slug]
  }

  /** The slugs it names at another version than the one in force. */
  function Stale(p: Pages, role: Role, items: seq<Item>): seq<string> {
    if items == [] then []
    else
      var last := items[|items| - 1];
      Stale(p, role, items[..|items| - 1])
      + if BindsSlug(p, role, last.slug) && Compare(last.version, CurrentFor(p, role, last.slug)) != 0
        then [last.slug] else []
  }

  /** An item the gate lets a user accept now. */
  predicate IsCurrent(p: Pages, role: Role, item: Item) {
    BindsSlug(p, role, item.slug) && Compare(item.version, CurrentFor(p, role, item.slug)) == 0
  }

  /** Nothing is refused exactly when every item is a binding document at the version in force. */
  lemma {:induction false} AcceptableIff(p: Pages, role: Role, items: seq<Item>)
    ensures Unknown(p, role, items) == [] && Stale(p, role, items) == [] <==> forall i :: i in items ==>
        IsCurrent(p, role, i)
  {
    hide BindsSlug, CurrentFor, Compare;
    if items != [] {
      var front, last := items[..|items| - 1], items[|items| - 1];
      AcceptableIff(p, role, front);
      assert items == front + [last];
      assert last in items && forall i :: i in front ==> i in items;
    }
  }

  /** An accepted document leaves the gate, the others stay in it, and nothing recorded changes. */
  lemma AcceptingSettlesExactlyTheItems(
    p: Pages, ledger: seq<Acceptance>, u: UserId, role: Role, items: seq<Item>, now: int, slug: string)
    requires forall i :: i in items ==> IsCurrent(p, role, i)
    ensures
      var after := Recorded(ledger, u, items, now);
      && ledger <= after
      && (IsPending(p, after, u, role, slug) <==>
            IsPending(p, ledger, u, role, slug) && forall i :: i in items ==> i.slug != slug)
  {
    hide CurrentFor, BindsSlug, Compare, Recorded;
    var after := Recorded(ledger, u, items, now);
    RecordingOnlyAppends(ledger, u, items, now);
    var current := CurrentFor(p, role, slug);
    assert forall a :: a in ledger ==> a in after;
    if i :| i in items && i.slug == slug {
      assert Holds(after, u, i);
      var a :| a in after && a.userId == u && a.slug == i.slug && a.version == i.version;
      assert HasAccepted(after, u, slug, current);
    } else {
      assert forall i :: i in items ==> RowFor(u, i, now).slug == i.slug;
      assert forall a :: a in after && a.slug == slug ==> a in ledger;
    }
  }

  /** What the app sends when the user accepts everything it was shown. */
  function ItemsOf(documents: seq<DocumentStatus>): (items: seq<Item>)
    ensures |items| == |documents|
    ensures forall i :: 0 <= i < |items| ==>
        items[i] == Item(documents[i].slug, documents[i].version, documents[i].page.locale)
  {
    seq(|documents|, i requires 0 <= i < |documents| =>
      Item(documents[i].slug, documents[i].version, documents[i].page.locale))
  }

  /** Everything shown as pending may be accepted. */
  lemma ShownIsCurrent(p: Pages, ledger: seq<Acceptance>, u: UserId, role: Role, locale: string)
    ensures forall i :: i in ItemsOf(DocumentStatuses(p, ledger, u, role, locale, true)) ==> IsCurrent(p, role, i)
  {
    hide DocumentStatuses, CurrentFor, BindsSlug, Compare;
    var shown := DocumentStatuses(p, ledger, u, role, locale, true);
    var items := ItemsOf(shown);
    forall i | i in items ensures IsCurrent(p, role, i) {
      var k :| 0 <= k < |items| && items[k] == i;
      assert shown[k] in shown;
      StatusIsListed(p, ledger, u, role, locale, true, shown[k]);
      CompareSelf(i.version);
    }
  }

  lemma NothingLeftPending(p: Pages, ledger: seq<Acceptance>, u: UserId, role: Role, locale: string, now: int,
      slug: string)
    ensures
      var items := ItemsOf(DocumentStatuses(p, ledger, u, role, locale, true));
      !IsPending(p, Recorded(ledger, u, items, now), u, role, slug)
  {
    hide DocumentStatuses, IsPending, IsCurrent, Recorded;
    var shown := DocumentStatuses(p, ledger, u, role, locale, true);
    var items := ItemsOf(shown);
    ShownIsCurrent(p, ledger, u, role, locale);
    GateAsksExactlyForPending(p, ledger, u, role, locale, slug);
    if IsPending(p, ledger, u, role, slug) {
      var t :| t in shown && t.slug == slug;
      var k :| 0 <= k < |shown| && shown[k] == t;
      assert items[k] in items && items[k].slug == slug;
    }
    AcceptingSettlesExactlyTheItems(p, ledger, u, role, items, now, slug);
  }

  /** Accepting all that is pending is never refused, empties the gate, and keeps every earlier row. */
  lemma AcceptingAllEmptiesTheGate(
    p: Pages, ledger: seq<Acceptance>, u: UserId, role: Role, locale: string, locale': string, now: int)
    ensures
      var items := ItemsOf(DocumentStatuses(p, ledger, u, role, locale, true));
      var after := Recorded(ledger, u, items, now);
      && Unknown(p, role, items) == [] && Stale(p, role, items) == []
      && ledger <= after
      && DocumentStatuses(p, after, u, role, locale', true) == []
  {
    hide DocumentStatuses, IsPending, IsCurrent, Recorded, Unknown, Stale;
    var items := ItemsOf(DocumentStatuses(p, ledger, u, role, locale, true));
    ShownIsCurrent(p, ledger, u, role, locale);
    AcceptableIff(p, role, items);
    RecordingOnlyAppends(ledger, u, items, now);
    var after := Recorded(ledger, u, items, now);
    var left := DocumentStatuses(p, after, u, role, locale', true);
    forall s ensures s !in left {
      NothingLeftPending(p, ledger, u, role, locale, now, s.slug);
      GateAsksExactlyForPending(p, after, u, role, locale', s.slug);
    }
    NoElements(left);
  }

  // ----- The gate against new versions -----

  /** An acceptance stays good, whatever anyone records, until a strictly newer version is in force. */
  lemma AcceptedUntilNewer(ledger: seq<Acceptance>, after: seq<Acceptance>, u: UserId, slug: string, current: string,
      next: string)
    requires ledger <= after
    requires HasAccepted(ledger, u, slug, current) && Compare(next, current) <= 0
    ensures HasAccepted(after, u, slug, next)
  {
    hide Compare;
    var a :| a in ledger && a.userId == u && a.slug == slug && Compare(a.version, current) >= 0;
    assert a in after;
    CompareFlips(a.version, current);
    CompareChains(next, current, a.version);
    CompareFlips(next, a.version);
  }

  lemma {:induction false} BindingHas(rows: map<PageId, Page>, n: nat, role: Role, page: Page)
    ensures page in BindingBelow(rows, n, role) <==>
            exists id :: id in rows && id < n && rows[id] == page && Binds(page, role)
  {
    hide Binds;
    if n > 0 { BindingHas(rows, n - 1, role, page); }
  }

  // ----- The service -----

  function Bucket(bySlug: map<string, seq<Page>>, slug: string): seq<Page> {
    if slug in bySlug then bySlug[slug] else []
  }

  /** The buckets of `rows`, with their keys in the order they were first set. */
  ghost predicate Grouped(bySlug: map<string, seq<Page>>, order: seq<string>, rows: seq<Page>) {
    && order == AddAll([], SlugsOf(rows))
    && (forall slug :: slug in bySlug <==> slug in order)
    && (forall slug :: Bucket(bySlug, slug) == Filter(rows, OfSlug(slug)))
  }

  lemma NextOrder(rows: seq<Page>, i: nat)
    requires i < |rows|
    ensures AddAll([], SlugsOf(rows[..i + 1])) == Add(AddAll([], SlugsOf(rows[..i])), rows[i].slug)
  {
    var before, slug := SlugsOf(rows[..i]), rows[i].slug;
    assert SlugsOf(rows[..i + 1]) == before + [slug];
    hide SlugsOf;
    AddAllConcat([], before, [slug]);
    assert [slug] == [slug] + [];
    AddAllStep(AddAll([], before), slug, []);
  }

  lemma NextBucket(bySlug: map<string, seq<Page>>, rows: seq<Page>, i: nat, slug: string)
    requires i < |rows| && Bucket(bySlug, slug) == Filter(rows[..i], OfSlug(slug))
    ensures
      var next := bySlug[rows[i].slug := Bucket(bySlug, rows[i].slug) + [rows[i]]];
      Bucket(next, slug) == Filter(rows[..i + 1], OfSlug(slug))
  {
    FilterNext(rows, i, OfSlug(slug));
    hide Filter;
  }

  lemma NextRow(bySlug: map<string, seq<Page>>, order: seq<string>, rows: seq<Page>, i: nat)
    requires i < |rows| && Grouped(bySlug, order, rows[..i])
    ensures Grouped(bySlug[rows[i].slug := Bucket(bySlug, rows[i].slug) + [rows[i]]], Add(order, rows[i].slug), rows[..i + 1])
  {
    hide AddAll, SlugsOf, Filter, Bucket;
    var next := bySlug[rows[i].slug := Bucket(bySlug, rows[i].slug) + [rows[i]]];
    NextOrder(rows, i);
    forall slug ensures Bucket(next, slug) == Filter(rows[..i + 1], OfSlug(slug)) {
      NextBucket(bySlug, rows, i, slug);
    }
  }

  class LegalService {
    var ledger: seq<Acceptance>

    constructor ()
      ensures ledger == []
    {
      ledger := [];
    }

    method FindBinding(p: Pages, role: Role) returns (rows: seq<Page>)
      ensures rows == Binding(p, role)
    {
      rows := [];
      for n := 0 to p.nextId
        invariant rows == BindingBelow(p.rows, n, role)
      {
        if n in p.rows && Binds(p.rows[n], role) { rows := rows + [p.rows[n]]; }
      }
    }

    /** The map of buckets; `order` is its insertion order. */
    method GroupBySlug(rows: seq<Page>) returns (bySlug: map<string, seq<Page>>, order: seq<string>)
      ensures Grouped(bySlug, order, rows)
    {
      bySlug, order := map[], [];
      assert rows[..0] == [] && Grouped(bySlug, order, []);
      for i := 0 to |rows|
        invariant Grouped(bySlug, order, rows[..i])
      {
        hide Grouped;
        var page := rows[i];
        NextRow(bySlug, order, rows, i);
        bySlug := bySlug[page.slug := (if page.slug in bySlug then bySlug[page.slug] else []) + [page]];
        order := Add(order, page.slug);
      }
      assert rows[..|rows|] == rows;
    }

    method LatestAccepted(list: seq<Acceptance>) returns (latest: map<string, Acceptance>)
      ensures forall slug :: (if slug in latest then Some(latest[slug]) else None) == LatestOf(list, slug)
    {
      latest := map[];
      for i := 0 to |list|
        invariant forall slug :: (if slug in latest then Some(latest[slug]) else None) == LatestOf(list[..i], slug)
      {
        assert list[..i + 1][..i] == list[..i];
        var a := list[i];
        if a.slug !in latest {
          latest := latest[a.slug := a];
        } else {
          var diff := CompareVersions(a.version, latest[a.slug].version);
          if diff > 0 { latest := latest[a.slug := a]; }
        }
      }
      assert list[..|list|] == list;
    }

    method GetDocumentStatuses(p: Pages, u: UserId, role: Role, locale: string, onlyPending: bool)
      returns (statuses: seq<DocumentStatus>)
      ensures statuses == DocumentStatuses(p, ledger, u, role, locale, onlyPending)
    {
      hide Binding, LatestOf, Query, StatusFrom, SlugsOf, AddAll, Filter, Statuses, StableSort;
      if role == Admin { return []; }
      var rows := FindBinding(p, role);
      var bySlug, order := GroupBySlug(rows);
      var list := Query(ledger, u, order);
      var latest := LatestAccepted(list);
      statuses := [];
      NoStatuses(rows, list, order, locale, onlyPending);
      for i := 0 to |order|
        invariant statuses == Statuses(rows, list, order[..i], locale, onlyPending)
      {
        var slug := order[i];
        assert slug in order;
        HasOwnRows(rows, slug);
        StatusesStep(rows, list, order, i, locale, onlyPending);
        var status := StatusFor(bySlug[slug], if slug in latest then Some(latest[slug]) else None, slug, locale);
        assert status == StatusOf(rows, list, slug, locale);
        if !(onlyPending && status.state == UpToDate) { statuses := statuses + [status]; }
      }
      assert order[..|order|] == order;
      statuses := StableSort(statuses, BySlugOrder());
    }

    /** One turn of the status loop. */
    method StatusFor(localeRows: seq<Page>, accepted: Option<Acceptance>, slug: string, locale: string)
      returns (status: DocumentStatus)
      requires localeRows != []
      ensures status == StatusFrom(localeRows, accepted, slug, locale)
    {
      var currentVersion := MaxVersion(VersionsOf(localeRows));
      var state := NeverAccepted;
      if accepted.Some? {
        var diff := CompareVersions(accepted.value.version, currentVersion);
        state := if diff < 0 then UpdateRequired else UpToDate;
      }
      return DocumentStatus(slug, currentVersion, PickLocale(localeRows, locale), accepted, state);
    }

    method PersistAcceptances(u: UserId, items: seq<Item>, now: int)
      modifies this
      ensures ledger == Recorded(old(ledger), u, items, now)
    {
      for i := 0 to |items|
        invariant Recorded(ledger, u, items[i..], now) == Recorded(old(ledger), u, items, now)
      {
        assert items[i..][0] == items[i] && items[i..][1..] == items[i + 1..];
        if !Holds(ledger, u, items[i]) { ledger := ledger + [RowFor(u, items[i], now)]; }
      }
    }

    /** A refused acceptance records nothing; an accepted one answers with what is still pending. */
    method AcceptDocuments(p: Pages, u: UserId, role: Role, items: seq<Item>, now: int)
      returns (r: Result<seq<DocumentStatus>, Error>)
      modifies this
      ensures
        if Unknown(p, role, items) != [] then r == Err(NotForThisAccount(Unknown(p, role, items)))
        else if Stale(p, role, items) != [] then r == Err(OutOfDate(Stale(p, role, items)))
        else r == Ok(DocumentStatuses(p, ledger, u, role, DEFAULT_LOCALE, true))
      ensures ledger == if r.Ok? then Recorded(old(ledger), u, items, now) else old(ledger)
    {
      var bySlug := VersionsInForce(p, u, role);
      hide DocumentStatuses, BindsSlug, CurrentFor, Compare;
      var unknown, stale := [], [];
      for i := 0 to |items|
        invariant unknown == Unknown(p, role, items[..i])
        invariant stale == Stale(p, role, items[..i])
        invariant ledger == old(ledger)
      {
        var item := items[i];
        assert items[..i + 1][..i] == items[..i];
        if item.slug !in bySlug {
          unknown := unknown + [item.slug];
        } else {
          var diff := CompareVersions(item.version, bySlug[item.slug].version);
          if diff != 0 { stale := stale + [item.slug]; }
        }
      }
      assert items[..|items|] == items;
      if unknown != [] { return Err(NotForThisAccount(unknown)); }
      if stale != [] { return Err(OutOfDate(stale)); }
      PersistAcceptances(u, items, now);
      var documents := GetDocumentStatuses(p, u, role, DEFAULT_LOCALE, true);
      return Ok(documents);
    }

    /** The applicable documents by slug. */
    method VersionsInForce(p: Pages, u: UserId, role: Role) returns (bySlug: map<string, DocumentStatus>)
      ensures forall slug :: slug in bySlug <==> BindsSlug(p, role, slug)
      ensures forall slug :: slug in bySlug ==> bySlug[slug].version == CurrentFor(p, role, slug)
    {
      hide DocumentStatuses, BindsSlug, CurrentFor;
      var applicable := GetDocumentStatuses(p, u, role, DEFAULT_LOCALE, false);
      bySlug := map[];
      for i := 0 to |applicable|
        invariant forall slug :: slug in bySlug ==>
            BindsSlug(p, role, slug) && bySlug[slug].version == CurrentFor(p, role, slug)
        invariant forall j :: 0 <= j < i ==> applicable[j].slug in bySlug
      {
        assert applicable[i] in applicable;
        StatusIsListed(p, ledger, u, role, DEFAULT_LOCALE, false, applicable[i]);
        bySlug := bySlug[applicable[i].slug := applicable[i]];
      }
      forall slug | BindsSlug(p, role, slug) ensures slug in bySlug {
        BoundIsListed(p, ledger, u, role, DEFAULT_LOCALE, slug);
      }
    }
  }
}
