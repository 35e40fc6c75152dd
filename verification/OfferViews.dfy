/**
 * The two lists the sent offers are shown in, each sorted by its own comparator:
 * the customer's (src/modules/offers/offers.service.ts, getUserSentOffers) and
 * the admin's (src/modules/bills/bills.service.ts, getAllOffersForBill).
 */
module OfferViews {
  import opened Wrappers
  import opened Sorting
  import opened SentOffers

  // ----- The customer's list -----

  /** When something was last sent for the bill. */
  function LatestSend(rows: seq<SentRow>, bill: Id): Option<int> {
    if rows == [] then None
    else
      var before, last := LatestSend(rows[..|rows| - 1], bill), rows[|rows| - 1];
      if last.billId == bill && (before.None? || last.createdAt > before.value) then Some(last.createdAt)
      else before
  }

  /** Newest send first, then by bill, then by place, then newest row. */
  function NewestSendFirst(latest: Id -> int): (SentRow, SentRow) -> bool {
    (a: SentRow, b: SentRow) =>
      latest(b.billId) < latest(a.billId) || (latest(b.billId) == latest(a.billId) &&
        (a.billId < b.billId || (a.billId == b.billId &&
          (a.displayOrder < b.displayOrder || (a.displayOrder == b.displayOrder && b.createdAt <= a.createdAt)))))
  }

  function LatestIn(rows: seq<SentRow>): Id -> int {
    (bill: Id) => LatestSend(rows, bill).GetOr(0)
  }

  function ForCustomer(rows: seq<SentRow>): (SentRow, SentRow) -> bool {
    NewestSendFirst(LatestIn(rows))
  }

  function CustomerList(rows: seq<SentRow>): seq<SentRow> {
    StableSort(rows, ForCustomer(rows))
  }

  method GetUserSentOffers(rows: seq<SentRow>) returns (list: seq<SentRow>)
    ensures list == CustomerList(rows)
  {
    hide StableSort;
    var latestSendPerBill: map<Id, int> := map[];
    for i := 0 to |rows|
      invariant forall bill :: bill in latestSendPerBill <==> LatestSend(rows[..i], bill).Some?
      invariant forall bill :: bill in latestSendPerBill ==>
        latestSendPerBill[bill] == LatestSend(rows[..i], bill).value
    {
      assert rows[..i + 1][..i] == rows[..i];
      var sent := rows[i];
      if sent.billId !in latestSendPerBill || sent.createdAt > latestSendPerBill[sent.billId] {
        latestSendPerBill := latestSendPerBill[sent.billId := sent.createdAt];
      }
    }
    assert rows[..|rows|] == rows;
    var latest := (bill: Id) => if bill in latestSendPerBill then latestSendPerBill[bill] else 0;
    assert forall bill :: latest(bill) == LatestIn(rows)(bill);
    SameLatest(latest, LatestIn(rows));
    SameComparator(rows, NewestSendFirst(latest), ForCustomer(rows));
    list := StableSort(rows, NewestSendFirst(latest));
  }

  lemma SameLatest(f: Id -> int, g: Id -> int)
    requires forall bill :: f(bill) == g(bill)
    ensures forall a, b :: NewestSendFirst(f)(a, b) == NewestSendFirst(g)(a, b)
  {
    forall a: SentRow, b: SentRow ensures NewestSendFirst(f)(a, b) == NewestSendFirst(g)(a, b) {
      assert f(a.billId) == g(a.billId) && f(b.billId) == g(b.billId);
    }
  }

  lemma {:induction false} SameComparator(rows: seq<SentRow>, f: (SentRow, SentRow) -> bool, g: (SentRow,
      SentRow) -> bool)
    requires forall a, b :: f(a, b) == g(a, b)
    ensures StableSort(rows, f) == StableSort(rows, g)
  {
    if rows != [] {
      SameComparator(rows[..|rows| - 1], f, g);
      SameInsert(StableSort(rows[..|rows| - 1], f), rows[|rows| - 1], f, g);
    }
  }

  lemma {:induction false} SameInsert(rows: seq<SentRow>, x: SentRow, f: (SentRow, SentRow) -> bool, g: (SentRow,
      SentRow) -> bool)
    requires forall a, b :: f(a, b) == g(a, b)
    ensures Insert(rows, x, f) == Insert(rows, x, g)
  {
    if rows != [] {
      SameInsert(rows[..|rows| - 1], x, f, g);
    }
  }

  lemma {:induction false} LatestSendIsLatest(rows: seq<SentRow>, i: nat)
    requires i < |rows|
    ensures LatestSend(rows, rows[i].billId).Some?
    ensures rows[i].createdAt <= LatestSend(rows, rows[i].billId).value
    ensures exists k :: 0 <= k < |rows| && rows[k].billId == rows[i].billId
                        && rows[k].createdAt == LatestSend(rows, rows[i].billId).value
  {
    var front, last := rows[..|rows| - 1], rows[|rows| - 1];
    if i < |front| {
      LatestSendIsLatest(front, i);
      assert forall k :: 0 <= k < |front| ==> front[k] == rows[k];
      assert rows[|rows| - 1] == last;
    } else {
      assert rows[|rows| - 1].billId == last.billId;
      if k :| 0 <= k < |front| && front[k].billId == last.billId {
        LatestSendIsLatest(front, k);
        assert forall k :: 0 <= k < |front| ==> front[k] == rows[k];
      } else {
        NeverSentFor(front, last.billId);
      }
    }
  }

  lemma {:induction false} NeverSentFor(rows: seq<SentRow>, bill: Id)
    requires forall k :: 0 <= k < |rows| ==> rows[k].billId != bill
    ensures LatestSend(rows, bill).None?
  {
    if rows != [] { NeverSentFor(rows[..|rows| - 1], bill); }
  }

  /** Whatever was sent for `older`, something was sent for `newer` no earlier. */
  predicate SentNoEarlier(rows: seq<SentRow>, newer: Id, older: Id) {
    forall r :: r in rows && r.billId == older ==>
      exists s :: s in rows && s.billId == newer && r.createdAt <= s.createdAt
  }

  lemma LatestDecides(rows: seq<SentRow>, a: SentRow, b: SentRow)
    requires a in rows && b in rows
    requires LatestSend(rows, b.billId).GetOr(0) <= LatestSend(rows, a.billId).GetOr(0)
    ensures SentNoEarlier(rows, a.billId, b.billId)
  {
    var i :| 0 <= i < |rows| && rows[i] == a;
    LatestSendIsLatest(rows, i);
    var k :| 0 <= k < |rows| && rows[k].billId == a.billId && rows[k].createdAt == LatestSend(rows, a.billId).value;
    forall r | r in rows && r.billId == b.billId
      ensures exists s :: s in rows && s.billId == a.billId && r.createdAt <= s.createdAt
    {
      var j :| 0 <= j < |rows| && rows[j] == r;
      LatestSendIsLatest(rows, j);
      assert rows[k] in rows && r.createdAt <= rows[k].createdAt;
    }
  }

  lemma PairIsInOrder(rows: seq<SentRow>, a: SentRow, b: SentRow)
    requires a in rows && b in rows && ForCustomer(rows)(a, b)
    ensures SentNoEarlier(rows, a.billId, b.billId)
    ensures a.billId == b.billId ==> a.displayOrder <= b.displayOrder
  {
    hide LatestSend, SentNoEarlier;
    LatestDecides(rows, a, b);
  }

  /** A bill between two rows of one bill is that bill. */
  lemma BetweenIsTheSame(rows: seq<SentRow>, a: SentRow, b: SentRow, c: SentRow)
    requires ForCustomer(rows)(a, b) && ForCustomer(rows)(b, c) && a.billId == c.billId
    ensures b.billId == a.billId
  {
    hide LatestSend;
  }

  /**
   * The customer's list is a rearrangement of the eligible rows: a bill comes before
   * the bills nothing newer was sent for, each bill's rows are together, and within a
   * bill they are by place.
   */
  lemma CustomerListIsGroupedAndOrdered(rows: seq<SentRow>)
    ensures var list := CustomerList(rows);
      && multiset(list) == multiset(rows)
      && (forall i, j :: 0 <= i < j < |list| ==> SentNoEarlier(rows, list[i].billId, list[j].billId))
      && (forall i, j, k :: 0 <= i < j < k < |list| && list[i].billId == list[k].billId ==>
            list[j].billId == list[i].billId)
      && (forall i, j :: 0 <= i < j < |list| && list[i].billId == list[j].billId ==>
            list[i].displayOrder <= list[j].displayOrder)
  {
    var list := CustomerList(rows);
    CustomerOrderIsPreorder(rows);
    SortSorts(rows, ForCustomer(rows));
    assert forall row :: row in list ==> row in rows;
    hide CustomerList, ForCustomer, TotalPreorder, SentNoEarlier;
    forall i, j, k | 0 <= i < j < k < |list| && list[i].billId == list[k].billId
      ensures list[j].billId == list[i].billId
    {
      BetweenIsTheSame(rows, list[i], list[j], list[k]);
    }
    forall i, j | 0 <= i < j < |list|
      ensures SentNoEarlier(rows, list[i].billId, list[j].billId)
      ensures list[i].billId == list[j].billId ==> list[i].displayOrder <= list[j].displayOrder
    {
      PairIsInOrder(rows, list[i], list[j]);
    }
  }

  lemma CustomerOrderIsPreorder(rows: seq<SentRow>)
    ensures TotalPreorder(ForCustomer(rows))
  {
    hide LatestSend;
  }

  // ----- The admin's list -----

  /** A catalogue entry with the place its sent row has, if it was sent. */
  datatype Listed = Listed(offerId: Id, displayOrder: Option<nat>)

  function PlaceOf(rows: seq<SentRow>, offer: Id): Option<nat> {
    if IsSent(rows, offer) then Some(RowFor(rows, offer).displayOrder) else None
  }

  function MissingFrom(catalogue: seq<Id>, rows: seq<SentRow>): Id -> bool {
    (offer: Id) => IsSent(rows, offer) && offer !in catalogue
  }

  function Entries(offers: seq<Id>, rows: seq<SentRow>): (e: seq<Listed>)
    ensures |e| == |offers|
    ensures forall i :: 0 <= i < |e| ==> e[i] == Listed(offers[i], PlaceOf(rows, offers[i]))
  {
    seq(|offers|, i requires 0 <= i < |offers| => Listed(offers[i], PlaceOf(rows, offers[i])))
  }

  /** Sent entries by place, everything else behind them. */
  function ForAdmin(): (Listed, Listed) -> bool {
    (a: Listed, b: Listed) => NullsLast(a.displayOrder, b.displayOrder)
  }

  predicate NullsLast(a: Option<nat>, b: Option<nat>) {
    b.None? || (a.Some? && a.value <= b.value)
  }

  /**
   * `catalogue` is what the price-ordered query answered, `undeleted` the whole
   * offers table: a sent offer the query left out is fetched back from there.
   */
  function AdminList(catalogue: seq<Id>, undeleted: seq<Id>, rows: seq<SentRow>): seq<Listed> {
    StableSort(Entries(catalogue + Filter(undeleted, MissingFrom(catalogue, rows)), rows), ForAdmin())
  }

  method GetAllOffersForBill(catalogue: seq<Id>, undeleted: seq<Id>, rows: seq<SentRow>) returns (list: seq<Listed>)
    ensures list == AdminList(catalogue, undeleted, rows)
  {
    hide StableSort, Filter;
    var offers := catalogue + Filter(undeleted, MissingFrom(catalogue, rows));
    var withSavings: seq<Listed> := [];
    for i := 0 to |offers|
      invariant |withSavings| == i
      invariant forall k :: 0 <= k < i ==> withSavings[k] == Listed(offers[k], PlaceOf(rows, offers[k]))
    {
      var sent := IsSent(rows, offers[i]);
      withSavings := withSavings +
        [Listed(offers[i], if sent then Some(RowFor(rows, offers[i]).displayOrder) else None)];
    }
    assert withSavings == Entries(offers, rows);
    list := StableSort(withSavings, ForAdmin());
  }

  function IsListedUnsent(): Listed -> bool {
    (e: Listed) => e.displayOrder.None?
  }

  /**
   * The sent offers lead the admin's list by ascending place; those not sent follow
   * in query order.
   */
  lemma AdminListLeadsWithSent(catalogue: seq<Id>, undeleted: seq<Id>, rows: seq<SentRow>)
    ensures var list := AdminList(catalogue, undeleted, rows);
      && (forall i, j :: 0 <= i < j < |list| && list[i].displayOrder.None? ==> list[j].displayOrder.None?)
      && (forall i, j :: 0 <= i < j < |list| && list[i].displayOrder.Some? && list[j].displayOrder.Some? ==>
            list[i].displayOrder.value <= list[j].displayOrder.value)
      && Filter(list, IsListedUnsent()) == Filter(Entries(catalogue, rows), IsListedUnsent())
  {
    hide StableSort, Filter, PlaceOf, MissingFrom;
    var missing := Filter(undeleted, MissingFrom(catalogue, rows));
    var entries := Entries(catalogue + missing, rows);
    var list := AdminList(catalogue, undeleted, rows);
    AdminOrderIsPreorder();
    SortSorts(entries, ForAdmin());
    SortIsStable(entries, ForAdmin(), IsListedUnsent());
    MissingAreSent(catalogue, undeleted, rows);
    assert entries == Entries(catalogue, rows) + Entries(missing, rows);
    FilterConcat(Entries(catalogue, rows), Entries(missing, rows), IsListedUnsent());
    assert Filter(Entries(catalogue, rows), IsListedUnsent()) + [] == Filter(Entries(catalogue, rows), IsListedUnsent());
    forall i, j | 0 <= i < j < |list| ensures ForAdmin()(list[i], list[j]) {
    }
  }

  lemma AdminOrderIsPreorder()
    ensures TotalPreorder(ForAdmin())
  {
    var le := ForAdmin();
    forall x: Listed, y: Listed ensures le(x, y) || le(y, x) {
      assert NullsLast(x.displayOrder, y.displayOrder) || NullsLast(y.displayOrder, x.displayOrder);
    }
    forall x: Listed, y: Listed, z: Listed | le(x, y) && le(y, z) ensures le(x, z) {
    }
  }

  lemma MissingAreSent(catalogue: seq<Id>, undeleted: seq<Id>, rows: seq<SentRow>)
    ensures Filter(Entries(Filter(undeleted, MissingFrom(catalogue, rows)), rows), IsListedUnsent()) == []
  {
    hide StableSort;
    var missing := Filter(undeleted, MissingFrom(catalogue, rows));
    forall e | e in Entries(missing, rows) ensures !IsListedUnsent()(e) {
      var i :| 0 <= i < |missing| && Entries(missing, rows)[i] == e;
      assert missing[i] in missing;
    }
    hide Filter;
    FilterNone(Entries(missing, rows), IsListedUnsent());
  }

  lemma EntryShowsItsPlace(catalogue: seq<Id>, undeleted: seq<Id>, rows: seq<SentRow>, x: nat)
    requires x < |AdminList(catalogue, undeleted, rows)|
    ensures var e := AdminList(catalogue, undeleted, rows)[x]; e.displayOrder == PlaceOf(rows, e.offerId)
  {
    var offers := catalogue + Filter(undeleted, MissingFrom(catalogue, rows));
    hide StableSort, Filter;
    var e := AdminList(catalogue, undeleted, rows)[x];
    assert e in AdminList(catalogue, undeleted, rows);
    assert e in Entries(offers, rows);
  }

  /**
   * Two rows of one bill that both lists show come in the same order in both:
   * what the admin drags is what the customer sees.
   */
  lemma ViewsAgree(all: seq<SentRow>, rows: seq<SentRow>, catalogue: seq<Id>, undeleted: seq<Id>,
                   i: nat, j: nat, x: nat, y: nat)
    requires Arranged(rows)
    requires i < |CustomerList(all)| && j < |CustomerList(all)| && i != j
    requires x < |AdminList(catalogue, undeleted, rows)| && y < |AdminList(catalogue, undeleted, rows)|
    requires var (a, b) := (CustomerList(all)[i], CustomerList(all)[j]);
      a in rows && b in rows && a.billId == b.billId && a != b &&
      a.offerId == Some(AdminList(catalogue, undeleted, rows)[x].offerId) &&
      b.offerId == Some(AdminList(catalogue, undeleted, rows)[y].offerId)
    ensures i < j <==> x < y
  {
    hide CustomerList, AdminList, LatestSend, Filter, PlaceOf, Arranged;
    EntryShowsItsPlace(catalogue, undeleted, rows, x);
    EntryShowsItsPlace(catalogue, undeleted, rows, y);
    AdminListLeadsWithSent(catalogue, undeleted, rows);
    CustomerListIsGroupedAndOrdered(all);
    PlaceOfRow(rows, CustomerList(all)[i]);
    PlaceOfRow(rows, CustomerList(all)[j]);
  }

  lemma PlaceOfRow(rows: seq<SentRow>, r: SentRow)
    requires Arranged(rows) && r in rows && r.offerId.Some?
    ensures PlaceOf(rows, r.offerId.value) == Some(r.displayOrder)
    ensures forall s :: s in rows && s != r ==> s.displayOrder != r.displayOrder
  {
    var k :| 0 <= k < |rows| && rows[k] == r;
    RowForIs(rows, k);
  }
}
