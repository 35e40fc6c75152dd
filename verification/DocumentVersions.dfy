/** What the page calls keep: one version per document, and never an older one. */
module DocumentVersions {
  import opened Wrappers
  import opened Versions
  import opened LegalPages
  import Sorting

  ghost predicate Valid(p: Pages) {
    && (forall id :: id in p.rows ==> id < p.nextId)
    && (forall id :: id in p.rows ==> p.rows[id].version != "")
  }

  predicate IsRow(p: Pages, id: PageId, slug: string) {
    id in p.rows && p.rows[id].slug == slug
  }

  predicate HasRows(p: Pages, slug: string) {
    exists id :: id in p.rows && IsRow(p, id, slug)
  }

  /** The versions of all rows of the document compare equal. */
  predicate CoherentAt(p: Pages, slug: string) {
    forall i, j :: i in p.rows && j in p.rows && IsRow(p, i, slug) && IsRow(p, j, slug) ==>
      Compare(p.rows[i].version, p.rows[j].version) == 0
  }

  lemma {:induction false} RowsBelowHas(rows: map<PageId, Page>, n: nat, slug: string, page: Page)
    ensures page in RowsBelow(rows, n, slug) <==> exists id :: id in rows && id < n && rows[id] == page && page.slug == slug
  {
    if n > 0 { RowsBelowHas(rows, n - 1, slug, page); }
  }

  /** The version in force is that of some row, and no row is newer. */
  lemma CurrentIs(p: Pages, slug: string)
    requires Valid(p) && HasRows(p, slug)
    ensures exists id :: id in p.rows && IsRow(p, id, slug) && p.rows[id].version == Current(p, slug)
    ensures forall id :: id in p.rows && IsRow(p, id, slug) ==> Compare(p.rows[id].version, Current(p, slug)) <= 0
  {
    hide RowsBelow, Compare, MaxVersion;
    var rows := Siblings(p, slug);
    var versions := VersionsOf(rows);
    forall id | id in p.rows && IsRow(p, id, slug)
      ensures Compare(p.rows[id].version, Current(p, slug)) <= 0
      ensures Current(p, slug) in versions
    {
      RowsBelowHas(p.rows, p.nextId, slug, p.rows[id]);
      var k :| 0 <= k < |rows| && rows[k] == p.rows[id];
      assert versions[k] in versions;
      MaxVersionIsNewest(versions, p.rows[id].version);
    }
    var k :| 0 <= k < |versions| && versions[k] == Current(p, slug);
    RowsBelowHas(p.rows, p.nextId, slug, rows[k]);
  }

  lemma SameChains(a: string, b: string, c: string)
    requires Compare(a, b) == 0 && Compare(b, c) == 0
    ensures Compare(a, c) == 0
  {
    hide Compare;
    CompareFlips(a, b);
    CompareFlips(b, c);
    CompareChains(a, b, c);
    CompareChains(c, b, a);
    CompareFlips(a, c);
  }

  /** In a coherent document every row carries the version in force. */
  lemma CoherentRowIsCurrent(p: Pages, slug: string, id: PageId)
    requires Valid(p) && CoherentAt(p, slug) && IsRow(p, id, slug)
    ensures Compare(p.rows[id].version, Current(p, slug)) == 0
    ensures Compare(Current(p, slug), p.rows[id].version) == 0
  {
    hide Compare;
    CurrentIs(p, slug);
    var k :| k in p.rows && IsRow(p, k, slug) && p.rows[k].version == Current(p, slug);
  }

  /** Two page tables agree on what is in force when each has a row as new as the other's. */
  lemma CurrentBetween(p: Pages, q: Pages, slug: string, id: PageId)
    requires Valid(p) && Valid(q) && HasRows(p, slug) && CoherentAt(p, slug)
    requires id in q.rows && IsRow(q, id, slug)
    requires exists k :: k in p.rows && IsRow(p, k, slug) && Compare(p.rows[k].version, q.rows[id].version) <= 0
    ensures Compare(Current(p, slug), Current(q, slug)) <= 0
  {
    hide Compare, Current;
    var k :| k in p.rows && IsRow(p, k, slug) && Compare(p.rows[k].version, q.rows[id].version) <= 0;
    CoherentRowIsCurrent(p, slug, k);
    CompareChains(Current(p, slug), p.rows[k].version, q.rows[id].version);
    CurrentIs(q, slug);
    CompareChains(Current(p, slug), q.rows[id].version, Current(q, slug));
  }

  // ----- Creating and deleting -----

  /** A new translation joins its document at the version in force. */
  lemma CreateKeepsTheDocument(p: Pages, dto: CreateDto, now: int, slug: string)
    requires Valid(p) && CoherentAt(p, slug)
    ensures
      var q := AfterCreate(p, dto, now).0;
      Valid(q) && CoherentAt(q, slug) && (HasRows(p, slug) ==> Compare(Current(p, slug), Current(q, slug)) == 0)
  {
    hide Compare, RowsBelow, MaxVersion;
    var q := AfterCreate(p, dto, now).0;
    var page := NewPage(p, dto, now);
    NewPageVersion(p, dto, now);
    if q != p {
      CompareSelf(page.version);
      forall i | IsRow(p, i, slug) && page.slug == slug
        ensures Compare(p.rows[i].version, page.version) == 0 && Compare(page.version, p.rows[i].version) == 0
      {
        CoherentRowIsCurrent(p, slug, i);
      }
      hide NewPage;
      assert CoherentAt(q, slug);
      if i :| i in p.rows && IsRow(p, i, slug) {
        assert IsRow(q, i, slug);
        CoherentRowIsCurrent(p, slug, i);
        CoherentRowIsCurrent(q, slug, i);
        hide Current;
        SameChains(Current(p, slug), p.rows[i].version, Current(q, slug));
      }
    } else {
      CompareSelf(Current(p, slug));
    }
  }

  lemma SiblingsIff(p: Pages, slug: string)
    requires Valid(p)
    ensures Siblings(p, slug) != [] <==> HasRows(p, slug)
  {
    hide RowsBelow;
    forall page ensures page in Siblings(p, slug) <==> exists id :: id in p.rows && p.rows[id] == page && page.slug == slug {
      RowsBelowHas(p.rows, p.nextId, slug, page);
    }
    Sorting.NoElements(Siblings(p, slug));
    if page :| page in Siblings(p, slug) {
      var id :| id in p.rows && p.rows[id] == page && page.slug == slug;
      assert IsRow(p, id, slug);
    }
    if id :| id in p.rows && IsRow(p, id, slug) {
      assert p.rows[id] in Siblings(p, slug);
    }
  }

  lemma NewPageVersion(p: Pages, dto: CreateDto, now: int)
    requires Valid(p)
    ensures NewPage(p, dto, now).version != "" && NewPage(p, dto, now).slug == dto.slug
    ensures HasRows(p, dto.slug) ==> NewPage(p, dto, now).version == Current(p, dto.slug)
  {
    hide MaxVersion, Siblings;
    SiblingsIff(p, dto.slug);
    if HasRows(p, dto.slug) { CurrentIs(p, dto.slug); }
  }

  lemma DeleteKeepsTheDocument(p: Pages, id: PageId, slug: string)
    requires Valid(p) && CoherentAt(p, slug)
    ensures
      var q := AfterDelete(p, id).0;
      Valid(q) && CoherentAt(q, slug) && (HasRows(q, slug) ==> Compare(Current(p, slug), Current(q, slug)) <= 0)
  {
    hide Compare, Current;
    var q := AfterDelete(p, id).0;
    assert forall i :: i in q.rows ==> i in p.rows && q.rows[i] == p.rows[i];
    if i :| i in q.rows && IsRow(q, i, slug) {
      assert IsRow(p, i, slug);
      CompareSelf(p.rows[i].version);
      CurrentBetween(p, q, slug, i);
    }
  }

  // ----- Updating -----

  /** What `version` the DTO's own pattern never lets through. */
  predicate HasVersionText(dto: UpdateDto) {
    dto.version.Some? ==> dto.version.value != ""
  }

  /** Another row of `slug` than the one being edited. */
  predicate IsOther(p: Pages, id: PageId, other: PageId, slug: string) {
    other != id && IsRow(p, other, slug)
  }

  predicate HasOthers(p: Pages, id: PageId, slug: string) {
    exists other :: other in p.rows && IsOther(p, id, other, slug)
  }

  /**
   * The edit takes one row of several to a version of its own: it changes the version
   * of a page that is no agreement afterwards, or moves a page in, unpublished, at
   * another version than the one in force.
   */
  predicate Strays(p: Pages, id: PageId, dto: UpdateDto, now: int, slug: string) {
    && UpdateAllowed(p, id, dto)
    && dto.slug.GetOr(p.rows[id].slug) == slug
    && HasOthers(p, id, slug)
    && if p.rows[id].slug == slug then
         VersionChanged(p, id, dto) && !dto.requiresAcceptance.GetOr(p.rows[id].requiresAcceptance)
       else
         !Publishes(p, id, dto, now) && Compare(dto.version.GetOr(p.rows[id].version), Current(p, slug)) != 0
  }

  /** Seen from the rows: the saved version is not that of the others. */
  predicate Differs(p: Pages, id: PageId, dto: UpdateDto, now: int, slug: string) {
    && UpdateAllowed(p, id, dto)
    && Assigned(p, id, dto, now).slug == slug
    && !Publishes(p, id, dto, now)
    && (exists other :: other in p.rows && IsOther(p, id, other, slug)
          && Compare(Assigned(p, id, dto, now).version, p.rows[other].version) != 0)
  }

  /** Versions that compare equal compare alike with any third. */
  lemma EqualsCompareAlike(a: string, b: string, c: string)
    requires Compare(b, c) == 0
    ensures Compare(a, b) == 0 <==> Compare(a, c) == 0
  {
    hide Compare;
    CompareFlips(b, c);
    SameChainsIf(a, b, c);
    SameChainsIf(a, c, b);
  }

  lemma StraysIffDiffers(p: Pages, id: PageId, dto: UpdateDto, now: int, slug: string)
    requires Valid(p) && CoherentAt(p, slug)
    ensures Strays(p, id, dto, now, slug) <==> Differs(p, id, dto, now, slug)
  {
    hide Compare, Clashes, GoesBackwards, Current;
    if UpdateAllowed(p, id, dto) {
      var saved := Assigned(p, id, dto, now);
      var reference := if p.rows[id].slug == slug then p.rows[id].version else Current(p, slug);
      CompareSelf(saved.version);
      forall other | other in p.rows && IsOther(p, id, other, slug)
        ensures Compare(saved.version, p.rows[other].version) == 0 <==> Compare(saved.version, reference) == 0
      {
        if p.rows[id].slug == slug {
          assert IsRow(p, id, slug) && IsRow(p, other, slug);
        } else {
          CoherentRowIsCurrent(p, slug, other);
        }
        EqualsCompareAlike(saved.version, reference, p.rows[other].version);
      }
    }
  }

  lemma UpdateKeepsValid(p: Pages, id: PageId, dto: UpdateDto, now: int)
    requires Valid(p) && HasVersionText(dto)
    ensures Valid(AfterUpdate(p, id, dto, now).0)
  {
    hide Compare;
  }

  /**
   * The rows of a document after an edit: the edited row if it is there, and the others
   * as they were or as published.
   */
  lemma RowsAfterUpdate(p: Pages, id: PageId, dto: UpdateDto, now: int, slug: string, k: PageId)
    requires UpdateAllowed(p, id, dto)
    ensures
      var q := AfterUpdate(p, id, dto, now).0;
      var saved := Assigned(p, id, dto, now);
      && (IsRow(q, k, slug) <==> if k == id then saved.slug == slug else IsOther(p, id, k, slug))
      && (IsRow(q, k, slug) ==>
            q.rows[k].version ==
            if k == id || (Publishes(p, id, dto, now) && saved.slug == slug) then saved.version else p.rows[k].version)
  {
    hide Compare;
  }

  /** A publish carries one version and one publication date to every translation, and leaves the rest of them alone. */
  lemma PublishingReachesEveryTranslation(p: Pages, id: PageId, dto: UpdateDto, now: int, k: PageId)
    requires UpdateAllowed(p, id, dto) && Publishes(p, id, dto, now)
    ensures
      var q := AfterUpdate(p, id, dto, now).0;
      var saved := Assigned(p, id, dto, now);
      && (IsRow(q, k, saved.slug) ==> q.rows[k].version == dto.version.value && q.rows[k].publishedAt == Some(now))
      && (IsRow(q, k, saved.slug) && k != id ==>
            q.rows[k].locale == p.rows[k].locale && q.rows[k].isActive == p.rows[k].isActive
            && q.rows[k].requiresAcceptance == p.rows[k].requiresAcceptance && q.rows[k].audience == p.rows[k].audience)
      && (k in q.rows && q.rows[k].slug != saved.slug ==> k in p.rows && q.rows[k] == p.rows[k])
  {
    hide Compare;
  }

  /** An edit keeps the document at one version exactly when it does not stray. */
  lemma UpdateKeepsOneVersionIff(p: Pages, id: PageId, dto: UpdateDto, now: int, slug: string)
    requires Valid(p) && CoherentAt(p, slug) && HasVersionText(dto)
    ensures CoherentAt(AfterUpdate(p, id, dto, now).0, slug) <==> !Strays(p, id, dto, now, slug)
  {
    StraysIffDiffers(p, id, dto, now, slug);
    hide Strays, Compare, Publishes, Assigned, Clashes, GoesBackwards, AfterUpdate;
    if UpdateAllowed(p, id, dto) {
      var q := AfterUpdate(p, id, dto, now).0;
      var saved := Assigned(p, id, dto, now);
      forall k ensures
          && (IsRow(q, k, slug) <==> if k == id then saved.slug == slug else IsOther(p, id, k, slug))
          && (IsRow(q, k, slug) ==>
                q.rows[k].version ==
                if k == id || (Publishes(p, id, dto, now) && saved.slug == slug) then saved.version else p.rows[k].version)
      {
        RowsAfterUpdate(p, id, dto, now, slug, k);
      }
      CompareSelf(saved.version);
      if Differs(p, id, dto, now, slug) {
        var other :| other in p.rows && IsOther(p, id, other, slug) && Compare(saved.version, p.rows[other].version) != 0;
        assert IsRow(q, other, slug) && IsRow(q, id, slug);
      } else {
        forall i, j | i in q.rows && j in q.rows && IsRow(q, i, slug) && IsRow(q, j, slug)
          ensures Compare(q.rows[i].version, q.rows[j].version) == 0
        {
          if i == id && j != id { assert IsOther(p, id, j, slug); }
          if j == id && i != id { assert IsOther(p, id, i, slug); CompareFlips(saved.version, q.rows[i].version); }
        }
      }
    } else {
      UpdateRefused(p, id, dto, now);
    }
  }

  lemma UpdateRefused(p: Pages, id: PageId, dto: UpdateDto, now: int)
    requires !UpdateAllowed(p, id, dto)
    ensures AfterUpdate(p, id, dto, now).0 == p
  {
  }

  /** The edit moves a page into the document and publishes a version older than the one in force. */
  predicate Overtakes(p: Pages, id: PageId, dto: UpdateDto, now: int, slug: string) {
    && UpdateAllowed(p, id, dto)
    && Assigned(p, id, dto, now).slug == slug
    && p.rows[id].slug != slug
    && Publishes(p, id, dto, now)
    && (exists other :: other in p.rows && IsOther(p, id, other, slug)
          && Compare(Assigned(p, id, dto, now).version, p.rows[other].version) < 0)
  }

  /** An edit never turns the document back to an older version, except by moving a page into it and publishing that. */
  lemma UpdateNeverGoesBackIff(p: Pages, id: PageId, dto: UpdateDto, now: int, slug: string)
    requires Valid(p) && CoherentAt(p, slug) && HasVersionText(dto)
    requires HasRows(p, slug) && HasRows(AfterUpdate(p, id, dto, now).0, slug)
    ensures Compare(Current(p, slug), Current(AfterUpdate(p, id, dto, now).0, slug)) <= 0
        <==> !Overtakes(p, id, dto, now, slug)
  {
    var q := AfterUpdate(p, id, dto, now).0;
    UpdateKeepsValid(p, id, dto, now);
    if UpdateAllowed(p, id, dto) {
      assert p.rows[id].slug == slug ==> Compare(p.rows[id].version, Assigned(p, id, dto, now).version) <= 0 by {
        NotOlder(p, id, dto, now);
      }
      hide Compare, Publishes, Assigned, Clashes, GoesBackwards, AfterUpdate, Current;
      if Overtakes(p, id, dto, now, slug) {
        OvertakingGoesBack(p, id, dto, now, slug);
      } else {
        var k :| k in q.rows && IsRow(q, k, slug);
        SomeRowIsAsNew(p, id, dto, now, slug, k);
      }
    } else {
      UpdateRefused(p, id, dto, now);
      CompareSelf(Current(p, slug));
    }
  }

  lemma NotOlder(p: Pages, id: PageId, dto: UpdateDto, now: int)
    requires UpdateAllowed(p, id, dto)
    ensures Compare(p.rows[id].version, Assigned(p, id, dto, now).version) <= 0
  {
    hide Compare;
    CompareSelf(p.rows[id].version);
    if dto.version.Some? { CompareFlips(dto.version.value, p.rows[id].version); }
  }

  lemma OvertakingGoesBack(p: Pages, id: PageId, dto: UpdateDto, now: int, slug: string)
    requires Valid(p) && CoherentAt(p, slug) && Valid(AfterUpdate(p, id, dto, now).0)
    requires Overtakes(p, id, dto, now, slug)
    ensures Compare(Current(p, slug), Current(AfterUpdate(p, id, dto, now).0, slug)) > 0
  {
    hide Compare, Publishes, Assigned, Clashes, GoesBackwards, AfterUpdate;
    var q := AfterUpdate(p, id, dto, now).0;
    var saved := Assigned(p, id, dto, now);
    var other :| other in p.rows && IsOther(p, id, other, slug) && Compare(saved.version, p.rows[other].version) < 0;
    RowsAfterUpdate(p, id, dto, now, slug, id);
    CurrentIs(q, slug);
    var k :| k in q.rows && IsRow(q, k, slug) && q.rows[k].version == Current(q, slug);
    RowsAfterUpdate(p, id, dto, now, slug, k);
    assert Current(q, slug) == saved.version;
    CoherentRowIsCurrent(p, slug, other);
    hide Current;
    CompareChains(saved.version, p.rows[other].version, Current(p, slug));
    CompareFlips(saved.version, Current(p, slug));
  }

  lemma SomeRowIsAsNew(p: Pages, id: PageId, dto: UpdateDto, now: int, slug: string, k: PageId)
    requires Valid(p) && CoherentAt(p, slug) && Valid(AfterUpdate(p, id, dto, now).0)
    requires UpdateAllowed(p, id, dto) && HasRows(p, slug) && !Overtakes(p, id, dto, now, slug)
    requires p.rows[id].slug == slug ==> Compare(p.rows[id].version, Assigned(p, id, dto, now).version) <= 0
    requires var q := AfterUpdate(p, id, dto, now).0; k in q.rows && IsRow(q, k, slug)
    ensures Compare(Current(p, slug), Current(AfterUpdate(p, id, dto, now).0, slug)) <= 0
  {
    hide Compare, Publishes, Assigned, Clashes, GoesBackwards, AfterUpdate, Current;
    var q := AfterUpdate(p, id, dto, now).0;
    var saved := Assigned(p, id, dto, now);
    RowsAfterUpdate(p, id, dto, now, slug, k);
    RowsAfterUpdate(p, id, dto, now, slug, id);
    if p.rows[id].slug == slug && saved.slug == slug {
      assert IsRow(p, id, slug) && IsRow(q, id, slug);
      CurrentBetween(p, q, slug, id);
    } else {
      var other :| other in p.rows && IsRow(p, other, slug) && (k != id ==> other == k) && other != id;
      RowsAfterUpdate(p, id, dto, now, slug, other);
      assert IsOther(p, id, other, slug);
      CompareSelf(p.rows[other].version);
      if saved.slug == slug && Publishes(p, id, dto, now) {
        assert Compare(saved.version, p.rows[other].version) >= 0;
        CompareFlips(saved.version, p.rows[other].version);
      }
      CurrentBetween(p, q, slug, other);
    }
  }

  // ----- Whole runs -----

  datatype Call =
    | Create(created: CreateDto)
    | Update(id: PageId, edited: UpdateDto)
    | Delete(deleted: PageId)

  function Perform(p: Pages, call: Call, now: int): Pages {
    match call
    case Create(dto) => AfterCreate(p, dto, now).0
    case Update(id, dto) => AfterUpdate(p, id, dto, now).0
    case Delete(id) => AfterDelete(p, id).0
  }

  /** The call leaves the pages of the document its pages, and agreements; it names a version if it sends one. */
  predicate Steady(p: Pages, call: Call, now: int, slug: string) {
    call.Update? ==>
      && HasVersionText(call.edited)
      && (UpdateAllowed(p, call.id, call.edited) ==>
            var saved := Assigned(p, call.id, call.edited, now);
            && (p.rows[call.id].slug == slug <==> saved.slug == slug)
            && (saved.slug == slug ==> saved.requiresAcceptance))
  }

  /** Steady calls publish; they never stray and never overtake. */
  lemma SteadyCallsKeepTheDocument(p: Pages, call: Call, now: int, slug: string)
    requires Valid(p) && CoherentAt(p, slug) && Steady(p, call, now, slug)
    ensures
      var q := Perform(p, call, now);
      Valid(q) && CoherentAt(q, slug)
      && (HasRows(p, slug) && HasRows(q, slug) ==> Compare(Current(p, slug), Current(q, slug)) <= 0)
  {
    match call
    case Create(dto) => CreateKeepsTheDocument(p, dto, now, slug);
    case Delete(id) => DeleteKeepsTheDocument(p, id, slug);
    case Update(id, dto) =>
      UpdateKeepsValid(p, id, dto, now);
      SteadyDoesNotStray(p, id, dto, now, slug);
      UpdateKeepsOneVersionIff(p, id, dto, now, slug);
      if HasRows(p, slug) && HasRows(Perform(p, call, now), slug) { UpdateNeverGoesBackIff(p, id, dto, now, slug); }
  }

  lemma SteadyDoesNotStray(p: Pages, id: PageId, dto: UpdateDto, now: int, slug: string)
    requires Steady(p, Update(id, dto), now, slug)
    ensures !Strays(p, id, dto, now, slug) && !Overtakes(p, id, dto, now, slug)
  {
    hide Compare, Clashes, GoesBackwards, Current;
  }

  lemma SameChainsIf(a: string, b: string, c: string)
    ensures Compare(a, b) == 0 && Compare(b, c) == 0 ==> Compare(a, c) == 0
  {
    hide Compare;
    if Compare(a, b) == 0 && Compare(b, c) == 0 { SameChains(a, b, c); }
  }

  datatype Timed = Timed(call: Call, now: int)

  function After(p: Pages, run: seq<Timed>): Pages {
    if run == [] then p
    else Perform(After(p, run[..|run| - 1]), run[|run| - 1].call, run[|run| - 1].now)
  }

  /** Every call of the run is steady for the document, and it never loses its last row. */
  predicate SteadyRun(p: Pages, run: seq<Timed>, slug: string) {
    HasRows(After(p, run), slug) &&
    (run == [] ||
     (SteadyRun(p, run[..|run| - 1], slug)
      && Steady(After(p, run[..|run| - 1]), run[|run| - 1].call, run[|run| - 1].now, slug)))
  }

  /** In every steady run the document has one version throughout, and it never goes back. */
  lemma {:induction false} VersionsOnlyGoForward(p: Pages, run: seq<Timed>, slug: string)
    requires Valid(p) && CoherentAt(p, slug) && SteadyRun(p, run, slug)
    ensures Valid(After(p, run)) && CoherentAt(After(p, run), slug)
    ensures HasRows(p, slug) && Compare(Current(p, slug), Current(After(p, run), slug)) <= 0
  {
    hide Compare, Current, Steady, Perform, CoherentAt, HasRows;
    if run == [] {
      CompareSelf(Current(p, slug));
    } else {
      var front, last := run[..|run| - 1], run[|run| - 1];
      VersionsOnlyGoForward(p, front, slug);
      SteadyCallsKeepTheDocument(After(p, front), last.call, last.now, slug);
      SteadyHasRows(p, front, slug);
      CompareChains(Current(p, slug), Current(After(p, front), slug), Current(After(p, run), slug));
    }
  }

  lemma SteadyHasRows(p: Pages, run: seq<Timed>, slug: string)
    requires SteadyRun(p, run, slug)
    ensures HasRows(After(p, run), slug)
  {
  }

  // ----- Where the scope is needed -----

  /** Moving a page onto a document's slug and publishing it there at an older version drags the document back. */
  lemma MovingInCanGoBack(now: int)
    ensures
      var terms := Page(TERMS_CONDITIONS, "it", "3", true, Everyone, true, None, None);
      var page := Page("about-us", "fr", "1", true, Everyone, true, None, None);
      var dto := UpdateDto(Some(TERMS_CONDITIONS), None, Some("2"), None, None, None, None);
      Overtakes(Pages(map[0 := terms, 1 := page], 2), 1, dto, now, TERMS_CONDITIONS)
  {
    SingleNumbersCompare("2", "1");
    SingleNumbersCompare("2", "3");
    hide Compare;
    PublishedOnto(now);
  }

  lemma PublishedOnto(now: int)
    requires Compare("2", "1") > 0 && Compare("2", "3") < 0
    ensures
      var terms := Page(TERMS_CONDITIONS, "it", "3", true, Everyone, true, None, None);
      var page := Page("about-us", "fr", "1", true, Everyone, true, None, None);
      var dto := UpdateDto(Some(TERMS_CONDITIONS), None, Some("2"), None, None, None, None);
      Overtakes(Pages(map[0 := terms, 1 := page], 2), 1, dto, now, TERMS_CONDITIONS)
  {
    hide Compare;
    var terms := Page(TERMS_CONDITIONS, "it", "3", true, Everyone, true, None, None);
    var page := Page("about-us", "fr", "1", true, Everyone, true, None, None);
    var p := Pages(map[0 := terms, 1 := page], 2);
    assert IsOther(p, 1, 0, TERMS_CONDITIONS);
  }

  /** A translation that no longer asks for acceptance takes a new version alone, and leaves the document behind. */
  lemma UnacceptedRowStrays(now: int)
    ensures
      var terms := Page(TERMS_CONDITIONS, "it", "1", true, Everyone, true, None, None);
      var copy := Page(TERMS_CONDITIONS, "en", "1", false, Everyone, true, None, None);
      var dto := UpdateDto(None, None, Some("2"), None, None, None, None);
      Strays(Pages(map[0 := terms, 1 := copy], 2), 1, dto, now, TERMS_CONDITIONS)
  {
    SingleNumbersCompare("2", "1");
    hide Compare;
    BumpedAlone(now);
  }

  lemma BumpedAlone(now: int)
    requires Compare("2", "1") > 0
    ensures
      var terms := Page(TERMS_CONDITIONS, "it", "1", true, Everyone, true, None, None);
      var copy := Page(TERMS_CONDITIONS, "en", "1", false, Everyone, true, None, None);
      var dto := UpdateDto(None, None, Some("2"), None, None, None, None);
      Strays(Pages(map[0 := terms, 1 := copy], 2), 1, dto, now, TERMS_CONDITIONS)
  {
    hide Compare;
    var terms := Page(TERMS_CONDITIONS, "it", "1", true, Everyone, true, None, None);
    var copy := Page(TERMS_CONDITIONS, "en", "1", false, Everyone, true, None, None);
    assert IsOther(Pages(map[0 := terms, 1 := copy], 2), 1, 0, TERMS_CONDITIONS);
  }
}
