/**
 * The offers sent for a bill and the order they are shown in:
 * src/modules/bills/bills.service.ts (sendOffersToUser, reorderSentOffers,
 * getAllOffersForBill) and src/modules/offers/offers.service.ts (getUserSentOffers).
 */
module SentOffers {
  import opened Wrappers
  import opened InsertionOrder
  import opened Sorting

  type Id = nat

  /** A row of `sent_offers`; `offerId` is cleared when the catalogue entry is dropped. */
  datatype SentRow = SentRow(
    id: Id, userId: Id, billId: Id, offerId: Option<Id>, displayOrder: nat, createdAt: int)

  datatype ReorderError = NothingSent | ListedTwice | NeverSent

  // ----- What holds of one bill's rows in every run -----

  /** The unique index on (bill, offer). */
  predicate DistinctOffers(rows: seq<SentRow>) {
    forall i, j :: 0 <= i < j < |rows| && rows[i].offerId.Some? ==> rows[i].offerId != rows[j].offerId
  }

  /** No two rows claim one place, and no place is beyond the end. */
  predicate Dense(rows: seq<SentRow>) {
    && (forall i :: 0 <= i < |rows| ==> rows[i].displayOrder < |rows|)
    && (forall i, j :: 0 <= i < j < |rows| ==> rows[i].displayOrder != rows[j].displayOrder)
  }

  predicate Arranged(rows: seq<SentRow>) {
    DistinctOffers(rows) && Dense(rows)
  }

  lemma HeadIsBelow(s: seq<nat>, m: nat)
    requires s != [] && forall i :: 0 <= i < |s| ==> s[i] < m
    ensures s[0] < m
  {
  }

  /** Distinct places below `m` are at most `m` many. */
  lemma {:induction false} Pigeonhole(s: seq<nat>, m: nat)
    requires Distinct(s) && forall i :: 0 <= i < |s| ==> s[i] < m
    ensures |s| <= m
  {
    if m == 0 {
      if s != [] { HeadIsBelow(s, m); }
    } else if i :| 0 <= i < |s| && s[i] == m - 1 {
      var t := s[..i] + s[i + 1..];
      assert forall j :: 0 <= j < |t| ==> t[j] == if j < i then s[j] else s[j + 1];
      Pigeonhole(t, m - 1);
    } else {
      Pigeonhole(s, m - 1);
    }
  }

  function Orders(rows: seq<SentRow>): (o: seq<nat>)
    ensures |o| == |rows| && forall i :: 0 <= i < |rows| ==> o[i] == rows[i].displayOrder
  {
    seq(|rows|, i requires 0 <= i < |rows| => rows[i].displayOrder)
  }

  /** The places of a dense list are exactly 0, 1, … up to its length. */
  lemma DenseCoversEveryPlace(rows: seq<SentRow>, k: nat)
    requires Dense(rows) && k < |rows|
    ensures exists i :: 0 <= i < |rows| && rows[i].displayOrder == k
  {
    if forall i :: 0 <= i < |rows| ==> rows[i].displayOrder != k {
      var o := Orders(rows);
      var shifted := seq(|o|, i requires 0 <= i < |o| => if o[i] > k then o[i] - 1 else o[i]);
      Pigeonhole(shifted, |rows| - 1);
    }
  }

  // ----- Sending a batch -----

  /** One past the highest place taken so far. */
  function NextPosition(rows: seq<SentRow>): (n: nat)
    ensures forall i :: 0 <= i < |rows| ==> rows[i].displayOrder < n
    ensures rows == [] ==> n == 0
    ensures rows != [] ==> exists i :: 0 <= i < |rows| && n == rows[i].displayOrder + 1
  {
    if rows == [] then 0
    else
      var n := NextPosition(rows[..|rows| - 1]);
      var last := rows[|rows| - 1];
      assert rows == rows[..|rows| - 1] + [last];
      if last.displayOrder + 1 > n then last.displayOrder + 1 else n
  }

  predicate IsSent(rows: seq<SentRow>, offer: Id) {
    exists i :: 0 <= i < |rows| && rows[i].offerId == Some(offer)
  }

  function UnsentIn(rows: seq<SentRow>): Id -> bool {
    (offer: Id) => !IsSent(rows, offer)
  }

  /** The offers of the batch that were not sent before. */
  function NotYetSent(rows: seq<SentRow>, batch: seq<Id>): seq<Id> {
    Filter(batch, UnsentIn(rows))
  }

  datatype Send = Send(userId: Id, billId: Id, firstRowId: Id, now: int)

  function NewRow(send: Send, offer: Id, i: nat, place: nat): SentRow {
    SentRow(send.firstRowId + i, send.userId, send.billId, Some(offer), place, send.now)
  }

  /** New rows for `offers`, placed from `next` on. */
  function NewRows(send: Send, offers: seq<Id>, next: nat): (rows: seq<SentRow>)
    ensures |rows| == |offers|
    ensures forall i :: 0 <= i < |rows| ==> rows[i] == NewRow(send, offers[i], i, next + i)
  {
    seq(|offers|, i requires 0 <= i < |offers| => NewRow(send, offers[i], i, next + i))
  }

  function AfterSend(existing: seq<SentRow>, send: Send, batch: seq<Id>): seq<SentRow> {
    existing + NewRows(send, NotYetSent(existing, batch), NextPosition(existing))
  }

  /** The dedupe and the running counter of sendOffersToUser. */
  method AppendBatch(existing: seq<SentRow>, send: Send, batch: seq<Id>) returns (rows: seq<SentRow>)
    ensures rows == AfterSend(existing, send, batch)
  {
    hide NextPosition, Filter;
    var existingIds: set<Option<Id>> := {};
    var nextPosition := 0;
    for i := 0 to |existing|
      invariant forall id :: id in existingIds <==> exists j :: 0 <= j < i && existing[j].offerId == id
      invariant nextPosition == NextPosition(existing[..i])
    {
      existingIds := existingIds + {existing[i].offerId};
      NextPositionGrows(existing, i);
      if existing[i].displayOrder + 1 > nextPosition {
        nextPosition := existing[i].displayOrder + 1;
      }
    }
    assert existing[..|existing|] == existing;
    var created: seq<SentRow> := [];
    ghost var start := nextPosition;
    assert Filter(batch[..0], UnsentIn(existing)) == [];
    for i := 0 to |batch|
      invariant created == NewRows(send, Filter(batch[..i], UnsentIn(existing)), start)
      invariant nextPosition == start + |created|
    {
      FilterNext(batch, i, UnsentIn(existing));
      assert UnsentIn(existing)(batch[i]) <==> Some(batch[i]) !in existingIds;
      if Some(batch[i]) !in existingIds {
        created := created + [NewRow(send, batch[i], |created|, nextPosition)];
        nextPosition := nextPosition + 1;
      }
    }
    assert batch[..|batch|] == batch;
    rows := existing + created;
  }

  lemma NextPositionGrows(rows: seq<SentRow>, i: nat)
    requires i < |rows|
    ensures NextPosition(rows[..i + 1]) ==
      var n, place := NextPosition(rows[..i]), rows[i].displayOrder;
      if place + 1 > n then place + 1 else n
  {
    assert rows[..i + 1][..i] == rows[..i];
  }

  lemma NextPositionOfDense(rows: seq<SentRow>)
    requires Dense(rows)
    ensures NextPosition(rows) == |rows|
  {
    Pigeonhole(Orders(rows), NextPosition(rows));
  }

  lemma {:induction false} FilterDistinct<T(!new)>(s: seq<T>, p: T -> bool)
    requires Distinct(s)
    ensures Distinct(Filter(s, p))
  {
    if s != [] {
      FilterDistinct(s[..|s| - 1], p);
    }
  }

  lemma SentAfterSend(existing: seq<SentRow>, send: Send, batch: seq<Id>, offer: Id)
    ensures IsSent(AfterSend(existing, send, batch), offer) <==> IsSent(existing, offer) || offer in batch
  {
    var unsent := NotYetSent(existing, batch);
    var rows := AfterSend(existing, send, batch);
    if IsSent(rows, offer) {
      var i :| 0 <= i < |rows| && rows[i].offerId == Some(offer);
      if i < |existing| {
        assert existing[i].offerId == Some(offer);
      } else {
        assert unsent[i - |existing|] in unsent;
      }
    }
    if IsSent(existing, offer) {
      var i :| 0 <= i < |existing| && existing[i].offerId == Some(offer);
      assert rows[i].offerId == Some(offer);
    } else if offer in batch {
      assert offer in unsent;
      var j :| 0 <= j < |unsent| && unsent[j] == offer;
      assert rows[|existing| + j].offerId == Some(offer);
    }
  }

  /**
   * A send leaves every earlier row as it was and continues the run without a
   * gap: distinct offers stay distinct and the places stay 0..n-1.
   */
  lemma SendKeepsArranged(existing: seq<SentRow>, send: Send, batch: seq<Id>)
    requires Arranged(existing) && Distinct(batch)
    ensures Arranged(AfterSend(existing, send, batch))
    ensures existing <= AfterSend(existing, send, batch)
    ensures forall i :: |existing| <= i < |AfterSend(existing, send, batch)| ==>
      AfterSend(existing, send, batch)[i].displayOrder == i
  {
    var unsent := NotYetSent(existing, batch);
    NextPositionOfDense(existing);
    FilterDistinct(batch, UnsentIn(existing));
    forall k | 0 <= k < |unsent| ensures !IsSent(existing, unsent[k]) {
      assert unsent[k] in unsent;
    }
    hide NextPosition, NotYetSent;
    var rows := AfterSend(existing, send, batch);
    forall i, j | 0 <= i < j < |rows| && rows[i].offerId.Some?
      ensures rows[i].offerId != rows[j].offerId
    {
      if i < |existing| <= j {
        assert !IsSent(existing, unsent[j - |existing|]);
      }
    }
  }

  // ----- The batch keeps the order of the request -----

  /** `requestedPosition.get(id)`: the last place at which the request names `id`. */
  function RequestedPosition(request: seq<Id>, id: Id): nat {
    if request == [] then 0
    else if request[|request| - 1] == id then |request| - 1
    else RequestedPosition(request[..|request| - 1], id)
  }

  function Among(ids: seq<Id>): Id -> bool {
    (id: Id) => id in ids
  }

  function ByRequest(request: seq<Id>): (Id, Id) -> bool {
    (a: Id, b: Id) => RequestedPosition(request, a) <= RequestedPosition(request, b)
  }

  /** The offers the query found, in the order the admin listed them. */
  function InRequestOrder(request: seq<Id>, found: seq<Id>): seq<Id> {
    StableSort(found, ByRequest(request))
  }

  lemma {:induction false} PositionIs(request: seq<Id>, k: nat)
    requires k < |request| && Distinct(request)
    ensures RequestedPosition(request, request[k]) == k
  {
    if k < |request| - 1 {
      PositionIs(request[..|request| - 1], k);
    }
  }

  lemma {:induction false} FilterIsInOrder(s: seq<Id>, p: Id -> bool, request: seq<Id>)
    requires Distinct(request) && s <= request
    ensures forall i, j :: 0 <= i < j < |Filter(s, p)| ==>
      RequestedPosition(request, Filter(s, p)[i]) < RequestedPosition(request, Filter(s, p)[j])
    ensures forall x :: x in Filter(s, p) ==> RequestedPosition(request, x) < |s|
  {
    if s != [] {
      var front, last := s[..|s| - 1], s[|s| - 1];
      FilterIsInOrder(front, p, request);
      PositionIs(request, |s| - 1);
      assert forall x :: x in Filter(front, p) ==> RequestedPosition(request, x) < |front|;
    }
  }

  lemma DistinctSameElements<T(!new)>(s: seq<T>, t: seq<T>)
    requires Distinct(s) && Distinct(t) && forall x :: x in s <==> x in t
    ensures multiset(s) == multiset(t)
  {
    forall x ensures multiset(s)[x] == multiset(t)[x] {
      DistinctCount(s, x);
      DistinctCount(t, x);
    }
  }

  lemma {:induction false} DistinctCount<T(!new)>(s: seq<T>, x: T)
    requires Distinct(s)
    ensures multiset(s)[x] == if x in s then 1 else 0
  {
    if s != [] {
      var front, last := s[..|s| - 1], s[|s| - 1];
      assert s == front + [last];
      DistinctCount(front, x);
    }
  }

  lemma PositionsDiffer(request: seq<Id>, x: Id, y: Id)
    requires Distinct(request) && x in request && y in request
    requires RequestedPosition(request, x) == RequestedPosition(request, y)
    ensures x == y
  {
    var i :| 0 <= i < |request| && request[i] == x;
    var j :| 0 <= j < |request| && request[j] == y;
    PositionIs(request, i);
    PositionIs(request, j);
  }

  lemma StrictOrder(request: seq<Id>, s: seq<Id>)
    requires Distinct(request) && forall id :: id in s ==> id in request
    ensures forall x, y :: x in s && y in s && ByRequest(request)(x, y) && ByRequest(request)(y, x) ==> x == y
  {
    forall x, y | x in s && y in s && ByRequest(request)(x, y) && ByRequest(request)(y, x) ensures x == y {
      PositionsDiffer(request, x, y);
    }
  }

  lemma ListedIsSorted(request: seq<Id>, p: Id -> bool)
    requires Distinct(request)
    ensures Sorted(Filter(request, p), ByRequest(request))
    ensures Distinct(Filter(request, p))
  {
    FilterIsInOrder(request, p, request);
    FilterDistinct(request, p);
  }

  lemma ByRequestIsPreorder(request: seq<Id>)
    ensures TotalPreorder(ByRequest(request))
  {
  }

  /** Whatever order the query answers in, the batch is the request without what was not found. */
  lemma BatchFollowsRequest(request: seq<Id>, found: seq<Id>)
    requires Distinct(request) && Distinct(found)
    requires forall id :: id in found ==> id in request
    ensures InRequestOrder(request, found) == Filter(request, Among(found))
  {
    hide StableSort, Filter, Distinct, ByRequest, Sorted, TotalPreorder;
    var le := ByRequest(request);
    var listed := Filter(request, Among(found));
    var sorted := StableSort(found, le);
    ByRequestIsPreorder(request);
    SortSorts(found, le);
    ListedIsSorted(request, Among(found));
    DistinctSameElements(found, listed);
    StrictOrder(request, sorted);
    SortedIsUnique(sorted, listed, le);
  }

  // ----- Rearranging -----

  /** `sentByOfferId.get(id)`: the last row for the offer. */
  function RowFor(rows: seq<SentRow>, offer: Id): (r: SentRow)
    requires IsSent(rows, offer)
    ensures r in rows && r.offerId == Some(offer)
  {
    var last := rows[|rows| - 1];
    if last.offerId == Some(offer) then last else RowFor(rows[..|rows| - 1], offer)
  }

  function RowsFor(rows: seq<SentRow>, offers: seq<Id>): (named: seq<SentRow>)
    requires forall offer :: offer in offers ==> IsSent(rows, offer)
    ensures |named| == |offers|
    ensures forall i :: 0 <= i < |named| ==> named[i] == RowFor(rows, offers[i])
  {
    seq(|offers|, i requires 0 <= i < |offers| => RowFor(rows, offers[i]))
  }

  function NotNamed(offers: seq<Id>): SentRow -> bool {
    (r: SentRow) => r.offerId.None? || r.offerId.value !in offers
  }

  function NamedBy(offers: seq<Id>): SentRow -> bool {
    (r: SentRow) => r.offerId.Some? && r.offerId.value in offers
  }

  /** Ascending place, and by age where places tie. */
  function ByPlace(): (SentRow, SentRow) -> bool {
    (a: SentRow, b: SentRow) =>
      a.displayOrder < b.displayOrder || (a.displayOrder == b.displayOrder && a.createdAt <= b.createdAt)
  }

  /** The rows the list leaves out, in their present order. */
  function Trailing(rows: seq<SentRow>, offers: seq<Id>): seq<SentRow> {
    StableSort(Filter(rows, NotNamed(offers)), ByPlace())
  }

  function Ordered(rows: seq<SentRow>, offers: seq<Id>): seq<SentRow>
    requires forall offer :: offer in offers ==> IsSent(rows, offer)
  {
    RowsFor(rows, offers) + Trailing(rows, offers)
  }

  function Placed(row: SentRow, place: nat): SentRow {
    row.(displayOrder := place)
  }

  /** `ordered.forEach((so, position) => { so.displayOrder = position; })` */
  function Renumbered(rows: seq<SentRow>): (r: seq<SentRow>)
    ensures |r| == |rows| && forall i :: 0 <= i < |rows| ==> r[i] == Placed(rows[i], i)
  {
    seq(|rows|, i requires 0 <= i < |rows| => Placed(rows[i], i))
  }

  function Reorder(rows: seq<SentRow>, offers: seq<Id>): Result<seq<SentRow>, ReorderError> {
    if rows == [] then Err(NothingSent)
    else if !Distinct(offers) then Err(ListedTwice)
    else if exists offer :: offer in offers && !IsSent(rows, offer) then Err(NeverSent)
    else Ok(Renumbered(Ordered(rows, offers)))
  }

  /** The checks, the two runs and the dense rewrite of reorderSentOffers. */
  method ReorderSentOffers(rows: seq<SentRow>, offers: seq<Id>)
    returns (r: Result<seq<SentRow>, ReorderError>)
    ensures r == Reorder(rows, offers)
  {
    if rows == [] { return Err(NothingSent); }
    if !Distinct(offers) { return Err(ListedTwice); }
    for i := 0 to |offers|
      invariant forall j :: 0 <= j < i ==> IsSent(rows, offers[j])
    {
      if !IsSent(rows, offers[i]) { return Err(NeverSent); }
    }
    var ordered := RowsFor(rows, offers) + Trailing(rows, offers);
    var placed: seq<SentRow> := [];
    for position := 0 to |ordered|
      invariant |placed| == position
      invariant forall k :: 0 <= k < position ==> placed[k] == Placed(ordered[k], k)
    {
      placed := placed + [Placed(ordered[position], position)];
    }
    assert placed == Renumbered(ordered);
    return Ok(placed);
  }

  // ----- A rearrangement is a permutation -----

  /** What a rearrangement may not touch: everything of a row but its place. */
  function Unplaced(rows: seq<SentRow>): (u: seq<SentRow>)
    ensures |u| == |rows| && forall i :: 0 <= i < |rows| ==> u[i] == Placed(rows[i], 0)
  {
    seq(|rows|, i requires 0 <= i < |rows| => Placed(rows[i], 0))
  }

  lemma {:induction false} RowForIs(rows: seq<SentRow>, i: nat)
    requires DistinctOffers(rows) && i < |rows| && rows[i].offerId.Some?
    ensures IsSent(rows, rows[i].offerId.value)
    ensures RowFor(rows, rows[i].offerId.value) == rows[i]
  {
    var offer := rows[i].offerId.value;
    assert rows[i].offerId == Some(offer);
    if i < |rows| - 1 {
      RowForIs(rows[..|rows| - 1], i);
    }
  }

  function Offers(offer: Id): SentRow -> bool {
    (r: SentRow) => r.offerId == Some(offer)
  }

  lemma DistinctOffersCount(rows: seq<SentRow>)
    ensures DistinctOffers(rows) <==> forall offer :: |Filter(rows, Offers(offer))| <= 1
  {
    if DistinctOffers(rows) {
      forall offer ensures |Filter(rows, Offers(offer))| <= 1 {
        if |Filter(rows, Offers(offer))| >= 2 { TwoFiltered(rows, Offers(offer)); }
      }
    } else {
      var i, j :| 0 <= i < j < |rows| && rows[i].offerId.Some? && rows[i].offerId == rows[j].offerId;
      FilterTwo(rows, Offers(rows[i].offerId.value), i, j);
    }
  }

  lemma PermutationKeepsDistinctOffers(rows: seq<SentRow>, permuted: seq<SentRow>)
    requires multiset(rows) == multiset(permuted) && DistinctOffers(rows)
    ensures DistinctOffers(permuted)
  {
    DistinctOffersCount(rows);
    DistinctOffersCount(permuted);
    forall offer ensures |Filter(permuted, Offers(offer))| <= 1 {
      FilterCount(rows, permuted, Offers(offer));
    }
  }

  lemma {:induction false} FilterKeepsDistinctOffers(rows: seq<SentRow>, p: SentRow -> bool)
    requires DistinctOffers(rows)
    ensures DistinctOffers(Filter(rows, p))
  {
    if rows != [] {
      var front, last := rows[..|rows| - 1], rows[|rows| - 1];
      FilterKeepsDistinctOffers(front, p);
      var f := Filter(front, p);
      forall k | 0 <= k < |f| ensures f[k].offerId.Some? ==> f[k].offerId != last.offerId {
        assert f[k] in f && f[k] in front;
      }
    }
  }

  predicate CanReorder(rows: seq<SentRow>, offers: seq<Id>) {
    rows != [] && DistinctOffers(rows) && Distinct(offers) && forall offer :: offer in offers ==> IsSent(rows, offer)
  }

  lemma NamedRows(rows: seq<SentRow>, offers: seq<Id>)
    requires CanReorder(rows, offers)
    ensures multiset(RowsFor(rows, offers)) == multiset(Filter(rows, NamedBy(offers)))
  {
    var named, filtered := RowsFor(rows, offers), Filter(rows, NamedBy(offers));
    forall i, j | 0 <= i < j < |named| ensures named[i] != named[j] {
      assert named[i].offerId == Some(offers[i]) && named[j].offerId == Some(offers[j]);
    }
    FilterKeepsDistinctOffers(rows, NamedBy(offers));
    forall i, j | 0 <= i < j < |filtered| ensures filtered[i] != filtered[j] {
      assert filtered[i] in filtered;
    }
    forall r ensures r in named <==> r in filtered {
      if r in named {
        var i :| 0 <= i < |named| && named[i] == r;
        assert offers[i] in offers;
      }
      if r in filtered {
        var k :| 0 <= k < |rows| && rows[k] == r;
        var i :| 0 <= i < |offers| && offers[i] == r.offerId.value;
        RowForIs(rows, k);
        assert named[i] == r;
      }
    }
    DistinctSameElements(named, filtered);
  }

  /** The named rows and the trailing ones are all the rows, each once: this rests on distinct offers. */
  lemma OrderedIsPermutation(rows: seq<SentRow>, offers: seq<Id>)
    requires CanReorder(rows, offers)
    ensures multiset(Ordered(rows, offers)) == multiset(rows)
  {
    NamedRows(rows, offers);
    FilterPartition(rows, NamedBy(offers), NotNamed(offers));
  }

  function UnplacesTo(u: SentRow): SentRow -> bool {
    (r: SentRow) => Placed(r, 0) == u
  }

  lemma {:induction false} UnplacedCount(rows: seq<SentRow>, u: SentRow)
    ensures multiset(Unplaced(rows))[u] == |Filter(rows, UnplacesTo(u))|
  {
    if rows != [] {
      var front, last := rows[..|rows| - 1], rows[|rows| - 1];
      UnplacedCount(front, u);
      assert Unplaced(rows) == Unplaced(front) + [Placed(last, 0)];
    }
  }

  lemma UnplacedPermutation(s: seq<SentRow>, t: seq<SentRow>)
    requires multiset(s) == multiset(t)
    ensures multiset(Unplaced(s)) == multiset(Unplaced(t))
  {
    forall u ensures multiset(Unplaced(s))[u] == multiset(Unplaced(t))[u] {
      UnplacedCount(s, u);
      UnplacedCount(t, u);
      FilterCount(s, t, UnplacesTo(u));
    }
  }

  lemma ReorderOnlyMovesRows(rows: seq<SentRow>, offers: seq<Id>)
    requires Arranged(rows) && Reorder(rows, offers).Ok?
    ensures var after := Reorder(rows, offers).value;
      multiset(Unplaced(after)) == multiset(Unplaced(rows)) && Arranged(after) && |after| == |rows|
  {
    assert CanReorder(rows, offers);
    var ordered := Ordered(rows, offers);
    OrderedIsPermutation(rows, offers);
    assert Reorder(rows, offers).value == Renumbered(ordered);
    assert DistinctOffers(rows);
    hide Reorder, CanReorder, Ordered, Renumbered, Arranged, DistinctOffers, Unplaced;
    UnplacedPermutation(ordered, rows);
    RenumberingOnlyPlaces(ordered);
    PermutationKeepsDistinctOffers(rows, ordered);
    SameElements(ordered, rows);
    RenumberedIsArranged(ordered);
  }

  lemma NamedOffersComeFirst(rows: seq<SentRow>, offers: seq<Id>)
    requires Arranged(rows) && Reorder(rows, offers).Ok?
    ensures var after := Reorder(rows, offers).value;
      && |offers| <= |after|
      && (forall i :: 0 <= i < |offers| ==> after[i].offerId == Some(offers[i]) && after[i].displayOrder == i)
      && (forall i :: |offers| <= i < |after| ==> NotNamed(offers)(after[i]) && after[i].displayOrder == i)
    ensures var before := Ordered(rows, offers);
      forall i, j :: |offers| <= i < j < |before| ==> before[i].displayOrder < before[j].displayOrder
  {
    hide DistinctOffers, Dense, RowFor, StableSort, Filter, ByPlace, Distinct, Trailing;
    var ordered := Ordered(rows, offers);
    var after := Renumbered(ordered);
    TrailingAscends(rows, offers);
    forall i | |offers| <= i < |after| ensures NotNamed(offers)(after[i]) {
      assert ordered[i] == Trailing(rows, offers)[i - |offers|];
      assert ordered[i] in Trailing(rows, offers);
    }
  }

  /**
   * An accepted rearrangement moves rows and changes nothing else, leaves the
   * places 0..n-1, puts the named offers first in the given order, and keeps the
   * others behind them in the order they had.
   */
  lemma ReorderArranges(rows: seq<SentRow>, offers: seq<Id>)
    requires Arranged(rows) && Reorder(rows, offers).Ok?
    ensures var after := Reorder(rows, offers).value;
      && multiset(Unplaced(after)) == multiset(Unplaced(rows))
      && Arranged(after)
      && |offers| <= |after| == |rows|
      && (forall i :: 0 <= i < |offers| ==> after[i].offerId == Some(offers[i]) && after[i].displayOrder == i)
      && (forall i :: |offers| <= i < |after| ==> NotNamed(offers)(after[i]) && after[i].displayOrder == i)
    ensures var before := Ordered(rows, offers);
      forall i, j :: |offers| <= i < j < |before| ==> before[i].displayOrder < before[j].displayOrder
  {
    hide *;
    ReorderOnlyMovesRows(rows, offers);
    NamedOffersComeFirst(rows, offers);
  }

  lemma RenumberingOnlyPlaces(rows: seq<SentRow>)
    ensures Unplaced(Renumbered(rows)) == Unplaced(rows)
  {
  }

  lemma RenumberedIsArranged(rows: seq<SentRow>)
    requires DistinctOffers(rows)
    ensures Arranged(Renumbered(rows))
  {
    var after := Renumbered(rows);
    forall i, j | 0 <= i < j < |after| && after[i].offerId.Some? ensures after[i].offerId != after[j].offerId {
      assert rows[i].offerId == after[i].offerId && rows[j].offerId == after[j].offerId;
    }
  }

  lemma TrailingAscends(rows: seq<SentRow>, offers: seq<Id>)
    requires Dense(rows)
    ensures forall i, j :: 0 <= i < j < |Trailing(rows, offers)| ==>
      Trailing(rows, offers)[i].displayOrder < Trailing(rows, offers)[j].displayOrder
    ensures forall r :: r in Trailing(rows, offers) ==> NotNamed(offers)(r)
  {
    var rest := Filter(rows, NotNamed(offers));
    SortSorts(rest, ByPlace());
    FilterKeepsPlaces(rows, NotNamed(offers));
    PermutationKeepsPlaces(rest, Trailing(rows, offers));
  }

  /** Where places tie, as they may in rows older than the column, the earlier send stands first. */
  lemma TiedRowsStandByAge(rows: seq<SentRow>, offers: seq<Id>, i: nat, j: nat)
    requires i < j < |Trailing(rows, offers)|
    ensures var (a, b) := (Trailing(rows, offers)[i], Trailing(rows, offers)[j]);
      a.displayOrder < b.displayOrder || (a.displayOrder == b.displayOrder && a.createdAt <= b.createdAt)
  {
    SortSorts(Filter(rows, NotNamed(offers)), ByPlace());
    assert ByPlace()(Trailing(rows, offers)[i], Trailing(rows, offers)[j]);
  }

  predicate DistinctPlaces(rows: seq<SentRow>) {
    forall i, j :: 0 <= i < j < |rows| ==> rows[i].displayOrder != rows[j].displayOrder
  }

  lemma {:induction false} FilterKeepsPlaces(rows: seq<SentRow>, p: SentRow -> bool)
    requires DistinctPlaces(rows)
    ensures DistinctPlaces(Filter(rows, p))
  {
    if rows != [] {
      var front, last := rows[..|rows| - 1], rows[|rows| - 1];
      FilterKeepsPlaces(front, p);
      var f := Filter(front, p);
      forall k | 0 <= k < |f| ensures f[k].displayOrder != last.displayOrder {
        assert f[k] in f && f[k] in front;
      }
    }
  }

  function AtPlace(k: nat): SentRow -> bool {
    (r: SentRow) => r.displayOrder == k
  }

  lemma PermutationKeepsPlaces(rows: seq<SentRow>, permuted: seq<SentRow>)
    requires multiset(rows) == multiset(permuted) && DistinctPlaces(rows)
    ensures DistinctPlaces(permuted)
  {
    forall i, j | 0 <= i < j < |permuted| ensures permuted[i].displayOrder != permuted[j].displayOrder {
      var k := permuted[i].displayOrder;
      FilterCount(rows, permuted, AtPlace(k));
      if |Filter(rows, AtPlace(k))| >= 2 { TwoFiltered(rows, AtPlace(k)); }
      if permuted[j].displayOrder == k { FilterTwo(permuted, AtPlace(k), i, j); }
    }
  }

  /** Rearranging twice with the same list is rearranging once. */
  lemma ReorderIsIdempotent(rows: seq<SentRow>, offers: seq<Id>)
    requires Arranged(rows) && Reorder(rows, offers).Ok?
    ensures Reorder(Reorder(rows, offers).value, offers) == Reorder(rows, offers)
  {
    ReorderArranges(rows, offers);
    var after := Reorder(rows, offers).value;
    assert after != [];
    assert Distinct(offers);
    hide Reorder;
    ReorderOfReordered(after, offers);
  }

  lemma ReorderOfReordered(after: seq<SentRow>, offers: seq<Id>)
    requires after != [] && Arranged(after) && Distinct(offers) && |offers| <= |after|
    requires forall i :: 0 <= i < |offers| ==> after[i].offerId == Some(offers[i])
    requires forall i :: |offers| <= i < |after| ==> NotNamed(offers)(after[i])
    requires forall i :: 0 <= i < |after| ==> after[i].displayOrder == i
    ensures Reorder(after, offers) == Ok(after)
  {
    var named, rest := after[..|offers|], after[|offers|..];
    forall i | 0 <= i < |offers| ensures IsSent(after, offers[i]) && RowFor(after, offers[i]) == after[i] {
      RowForIs(after, i);
    }
    assert RowsFor(after, offers) == named;
    assert after == named + rest;
    RestIsTrailing(named, rest, offers);
    assert Renumbered(after) == after;
  }

  lemma RestIsTrailing(named: seq<SentRow>, rest: seq<SentRow>, offers: seq<Id>)
    requires |named| == |offers| && forall i :: 0 <= i < |named| ==> named[i].offerId == Some(offers[i])
    requires forall i :: 0 <= i < |rest| ==> NotNamed(offers)(rest[i])
    requires forall i :: 0 <= i < |rest| ==> rest[i].displayOrder == |named| + i
    ensures Trailing(named + rest, offers) == rest
  {
    hide Filter, StableSort;
    forall r | r in named ensures !NotNamed(offers)(r) {
      var i :| 0 <= i < |named| && named[i] == r;
      assert offers[i] in offers;
    }
    assert Sorted(rest, ByPlace());
    hide ByPlace, NotNamed, Sorted;
    FilterConcat(named, rest, NotNamed(offers));
    FilterNone(named, NotNamed(offers));
    FilterAll(rest, NotNamed(offers));
    assert [] + rest == rest;
    SortOfSorted(rest, ByPlace());
  }

  // ----- The backfill that numbers rows sent before places existed -----

  /** `ROW_NUMBER() OVER (PARTITION BY bill_id ORDER BY created_at, id) - 1` on one bill's rows. */
  function ByAge(): (SentRow, SentRow) -> bool {
    (a: SentRow, b: SentRow) => a.createdAt < b.createdAt || (a.createdAt == b.createdAt && a.id <= b.id)
  }

  function Backfilled(rows: seq<SentRow>): seq<SentRow> {
    Renumbered(StableSort(rows, ByAge()))
  }

  lemma BackfillArranges(rows: seq<SentRow>)
    requires DistinctOffers(rows)
    ensures Arranged(Backfilled(rows))
    ensures multiset(Unplaced(Backfilled(rows))) == multiset(Unplaced(rows))
    ensures forall i, j :: 0 <= i < j < |rows| ==> Backfilled(rows)[i].createdAt <= Backfilled(rows)[j].createdAt
  {
    var sorted := StableSort(rows, ByAge());
    SortSorts(rows, ByAge());
    PermutationKeepsDistinctOffers(rows, sorted);
    hide StableSort;
    RenumberedIsArranged(sorted);
    UnplacedPermutation(sorted, rows);
    RenumberingOnlyPlaces(sorted);
  }

  // ----- Whole runs -----

  /** The sends, rearrangements and catalogue deletions a bill's rows go through. */
  datatype Step =
    | SendStep(send: Send, batch: seq<Id>)
    | ReorderStep(offers: seq<Id>)
    | DropOffer(offer: Id)

  function WithoutOffer(row: SentRow, offer: Id): SentRow {
    if row.offerId == Some(offer) then row.(offerId := None) else row
  }

  /** `ON DELETE SET NULL` */
  function Dropped(rows: seq<SentRow>, offer: Id): (r: seq<SentRow>)
    ensures |r| == |rows|
    ensures forall i :: 0 <= i < |rows| ==> r[i] == WithoutOffer(rows[i], offer)
  {
    seq(|rows|, i requires 0 <= i < |rows| => WithoutOffer(rows[i], offer))
  }

  function After(rows: seq<SentRow>, step: Step): seq<SentRow> {
    match step
    case SendStep(send, batch) => AfterSend(rows, send, batch)
    case ReorderStep(offers) =>
      var r := Reorder(rows, offers);
      if r.Ok? then r.value else rows
    case DropOffer(offer) => Dropped(rows, offer)
  }

  function Run(rows: seq<SentRow>, steps: seq<Step>): seq<SentRow> {
    if steps == [] then rows else After(Run(rows, steps[..|steps| - 1]), steps[|steps| - 1])
  }

  lemma DropKeepsArranged(rows: seq<SentRow>, offer: Id)
    requires Arranged(rows)
    ensures Arranged(Dropped(rows, offer))
  {
  }

  /** Starting from no row, or from the backfill, every run keeps offers distinct and places exactly 0..n-1. */
  lemma {:induction false} EveryRunIsArranged(rows: seq<SentRow>, steps: seq<Step>)
    requires Arranged(rows)
    requires forall i :: 0 <= i < |steps| && steps[i].SendStep? ==> Distinct(steps[i].batch)
    ensures Arranged(Run(rows, steps))
  {
    if steps != [] {
      EveryRunIsArranged(rows, steps[..|steps| - 1]);
      var before, step := Run(rows, steps[..|steps| - 1]), steps[|steps| - 1];
      match step {
        case SendStep(send, batch) => SendKeepsArranged(before, send, batch);
        case ReorderStep(offers) => if Reorder(before, offers).Ok? { ReorderArranges(before, offers); }
        case DropOffer(offer) => DropKeepsArranged(before, offer);
      }
    }
  }
}
