/**
 * The exactly-once notification log: `sendNotification` and
 * `insertIgnoringDuplicates` of src/modules/notifications/notifications.service.ts,
 * the triggers of notification-events.service.ts and the milestone tables of
 * notification-messages.ts.
 */
module NotificationLog {
  import opened Wrappers
  import opened Statuses
  import opened Placeholders
  import opened InsertionOrder
  import opened RecipientText

  // ----- Dedupe keys -----

  /** A uuid has no colon in it. */
  type Uuid = s: string | ':' !in s witness "0"

  /** `<kind>:<id>:<suffix>` */
  function KeyText(kind: string, id: string, suffix: string): string {
    kind + ":" + id + ":" + suffix
  }

  lemma FirstColon(a: string, x: string, b: string, y: string)
    requires ':' !in a && ':' !in b
    requires a + ":" + x == b + ":" + y
    ensures a == b && x == y
  {
    var s, t := a + ":" + x, b + ":" + y;
    assert s[|a|] == ':' && t[|b|] == ':';
    assert forall i :: 0 <= i < |a| ==> s[i] == a[i] && a[i] in a;
    assert forall i :: 0 <= i < |b| ==> t[i] == b[i] && b[i] in b;
    assert |a| == |b|;
    assert a == s[..|a|] && b == t[..|b|];
    assert x == s[|a| + 1..] && y == t[|b| + 1..];
  }

  /** Two keys are the same string only for the same kind, entity and event. */
  lemma KeysAreInjective(kind: string, id: Uuid, suffix: string, kind': string, id': Uuid, suffix': string)
    requires ':' !in kind && ':' !in kind'
    ensures KeyText(kind, id, suffix) == KeyText(kind', id', suffix') <==> kind == kind' && id == id' && suffix == suffix'
  {
    if KeyText(kind, id, suffix) == KeyText(kind', id', suffix') {
      var rest, rest' := id + ":" + suffix, id' + ":" + suffix';
      assert KeyText(kind, id, suffix) == kind + ":" + rest;
      assert KeyText(kind', id', suffix') == kind' + ":" + rest';
      FirstColon(kind, rest, kind', rest');
      FirstColon(id, suffix, id', suffix');
    }
  }

  // ----- The stored rows -----

  datatype Row = Row(userId: UserId, text: Wording, dedupeKey: Option<string>)

  /** The unique index on (user, key); a null key never conflicts. */
  predicate Conflicts(rows: seq<Row>, row: Row) {
    row.dedupeKey.Some? && exists r :: r in rows && r.userId == row.userId && r.dedupeKey == row.dedupeKey
  }

  /** ON CONFLICT DO NOTHING: the rows of a batch that are written, one after another. */
  function Accepted(rows: seq<Row>, batch: seq<Row>): seq<Row>
    decreases |batch|
  {
    if batch == [] then []
    else if Conflicts(rows, batch[0]) then Accepted(rows, batch[1..])
    else [batch[0]] + Accepted(rows + [batch[0]], batch[1..])
  }

  /** The (user, key) pairs of the keyed rows, in the order they were stored. */
  function Keyed(rows: seq<Row>): seq<(UserId, string)> {
    if rows == [] then []
    else
      var last := rows[|rows| - 1];
      Keyed(rows[..|rows| - 1]) + if last.dedupeKey.Some? then [(last.userId, last.dedupeKey.value)] else []
  }

  lemma {:induction false} KeyedHas(rows: seq<Row>, u: UserId, k: string)
    ensures (u, k) in Keyed(rows) <==> exists r :: r in rows && r.userId == u && r.dedupeKey == Some(k)
  {
    if rows != [] {
      var front, last := rows[..|rows| - 1], rows[|rows| - 1];
      KeyedHas(front, u, k);
      assert rows == front + [last];
      assert forall r :: r in rows <==> r in front || r == last;
    }
  }

  lemma KeyedOne(rows: seq<Row>, row: Row)
    ensures Keyed(rows + [row]) == Keyed(rows) + if row.dedupeKey.Some? then [(row.userId, row.dedupeKey.value)] else []
  {
    assert (rows + [row])[..|rows + [row]| - 1] == rows;
  }

  lemma {:induction false} KeyedHead(row: Row, rest: seq<Row>)
    ensures Keyed([row] + rest) == (if row.dedupeKey.Some? then [(row.userId, row.dedupeKey.value)] else []) + Keyed(rest)
  {
    if rest == [] {
      assert [row] + rest == [] + [row];
      KeyedOne([], row);
    } else {
      var front, last := rest[..|rest| - 1], rest[|rest| - 1];
      KeyedHead(row, front);
      assert [row] + rest == ([row] + front) + [last];
      assert rest == front + [last];
      KeyedOne([row] + front, last);
      KeyedOne(front, last);
    }
  }

  /** One row of a batch: written unless its pair is there already. */
  function Written(rows: seq<Row>, row: Row): seq<Row> {
    if Conflicts(rows, row) then [] else [row]
  }

  lemma RowAddsNewKey(rows: seq<Row>, row: Row)
    ensures Keyed(rows + Written(rows, row)) == AddAll(Keyed(rows), Keyed([row]))
  {
    KeyedOne(rows, row);
    KeyedOne([], row);
    assert [] + [row] == [row];
    assert rows + [] == rows;
    hide Keyed;
    if row.dedupeKey.Some? { KeyedHas(rows, row.userId, row.dedupeKey.value); }
    hide Conflicts;
    assert AddAll(Keyed(rows), []) == Keyed(rows);
    if row.dedupeKey.Some? {
      var pair := (row.userId, row.dedupeKey.value);
      assert Keyed([row]) == [pair] == [pair] + [];
      AddAllStep(Keyed(rows), pair, []);
    }
  }

  lemma AcceptedStep(rows: seq<Row>, row: Row, rest: seq<Row>)
    ensures Accepted(rows, [row] + rest) == Written(rows, row) + Accepted(rows + Written(rows, row), rest)
  {
    assert ([row] + rest)[1..] == rest;
    assert rows + [] == rows;
  }

  lemma Associates<T>(a: seq<T>, b: seq<T>, c: seq<T>)
    ensures a + (b + c) == (a + b) + c
  {
  }

  /** A batch adds to the keyed rows exactly the pairs that were not there. */
  lemma {:induction false} BatchAddsNewKeys(rows: seq<Row>, batch: seq<Row>)
    ensures Keyed(rows + Accepted(rows, batch)) == AddAll(Keyed(rows), Keyed(batch))
    decreases |batch|
  {
    if batch == [] {
      assert rows + [] == rows;
    } else {
      hide *;
      assert batch == [batch[0]] + batch[1..];
      BatchAddsNewKeys(rows + Written(rows, batch[0]), batch[1..]);
      RowThenBatch(rows, batch[0], batch[1..]);
    }
  }

  lemma RowThenBatch(rows: seq<Row>, row: Row, rest: seq<Row>)
    ensures
      var next := rows + Written(rows, row);
      Keyed(next + Accepted(next, rest)) == AddAll(Keyed(next), Keyed(rest)) ==>
        Keyed(rows + Accepted(rows, [row] + rest)) == AddAll(Keyed(rows), Keyed([row] + rest))
  {
    hide *;
    RowAddsNewKey(rows, row);
    AcceptedStep(rows, row, rest);
    Associates(rows, Written(rows, row), Accepted(rows + Written(rows, row), rest));
    KeyedHead(row, rest);
    KeyedOnly(row);
    AddAllConcat(Keyed(rows), Keyed([row]), Keyed(rest));
  }

  lemma KeyedOnly(row: Row)
    ensures Keyed([row]) == if row.dedupeKey.Some? then [(row.userId, row.dedupeKey.value)] else []
  {
    assert [row][..0] == [];
  }

  // ----- One send -----

  /** One call of `sendNotification`, with what its queries find. */
  datatype Send = Send(dto: Input, dedupeKey: Option<string>, userIds: seq<UserId>, db: Database)

  function Batch(s: Send): seq<Row> {
    seq(|s.userIds|, i requires 0 <= i < |s.userIds| => Row(s.userIds[i], TextOf(s.dto, s.db, s.userIds[i]), s.dedupeKey))
  }

  predicate Refused(s: Send) {
    s.userIds != [] && SendUnresolved(s.dto, s.db, s.userIds) != []
  }

  /** The rows a send writes, which are also the ones it pushes. */
  function Delivered(rows: seq<Row>, s: Send): seq<Row> {
    if Refused(s) then [] else Accepted(rows, Batch(s))
  }

  class Outbox {
    var rows: seq<Row>
    var pushed: seq<Row>

    constructor ()
      ensures rows == [] && pushed == []
    {
      rows, pushed := [], [];
    }

    method InsertIgnoringDuplicates(batch: seq<Row>) returns (inserted: seq<Row>)
      modifies this
      ensures inserted == Accepted(old(rows), batch)
      ensures rows == old(rows) + inserted
      ensures pushed == old(pushed)
    {
      inserted := [];
      ghost var before := rows;
      for i := 0 to |batch|
        invariant rows == before + inserted && pushed == old(pushed)
        invariant inserted + Accepted(rows, batch[i..]) == Accepted(before, batch)
      {
        assert batch[i..][0] == batch[i] && batch[i..][1..] == batch[i + 1..];
        if !Conflicts(rows, batch[i]) {
          rows := rows + [batch[i]];
          inserted := inserted + [batch[i]];
        }
      }
    }

    /** Refused sends write and push nothing; the rest push to exactly the rows they write. */
    method SendNotification(s: Send) returns (r: Result<seq<Row>, seq<string>>)
      modifies this
      ensures r.Err? <==> Refused(s)
      ensures r.Err? ==> r.error == SendUnresolved(s.dto, s.db, s.userIds)
      ensures r.Ok? ==> r.value == Delivered(old(rows), s)
      ensures rows == old(rows) + Delivered(old(rows), s)
      ensures pushed == old(pushed) + Delivered(old(rows), s)
    {
      hide SendUnresolved, TextOf;
      if s.userIds == [] { return Ok([]); }
      var texts, unresolved := ResolveTextPerUser(s.dto, s.userIds, s.db);
      if unresolved != [] { return Err(unresolved); }
      var batch := seq(|s.userIds|, i requires 0 <= i < |s.userIds| && s.userIds[i] in s.userIds && s.userIds[i] in texts =>
        Row(s.userIds[i], texts[s.userIds[i]], s.dedupeKey));
      assert batch == Batch(s);
      var saved;
      if s.dedupeKey.Some? {
        saved := InsertIgnoringDuplicates(batch);
      } else {
        NullKeysNeverConflict(rows, batch);
        saved := batch;
        rows := rows + batch;
      }
      if saved == [] { return Ok([]); }
      pushed := pushed + saved;
      return Ok(saved);
    }

    /** `toCustomer`: a refused send is logged and forgotten. */
    method ToCustomer(s: Send)
      modifies this
      ensures rows == old(rows) + Delivered(old(rows), s)
      ensures pushed == old(pushed) + Delivered(old(rows), s)
    {
      var _ := SendNotification(s);
    }
  }

  lemma {:induction false} NullKeysNeverConflict(rows: seq<Row>, batch: seq<Row>)
    requires forall i :: 0 <= i < |batch| ==> batch[i].dedupeKey.None?
    ensures Accepted(rows, batch) == batch
    decreases |batch|
  {
    if batch != [] { NullKeysNeverConflict(rows + [batch[0]], batch[1..]); }
  }

  // ----- Whole runs -----

  /** The store after a run of sends from empty. */
  function After(sends: seq<Send>): seq<Row> {
    if sends == [] then []
    else
      var before := After(sends[..|sends| - 1]);
      before + Delivered(before, sends[|sends| - 1])
  }

  /** The (user, key) pairs of the sends that were not refused, as they occurred. */
  function Announced(sends: seq<Send>): seq<(UserId, string)> {
    if sends == [] then []
    else
      var last := sends[|sends| - 1];
      Announced(sends[..|sends| - 1]) + if Refused(last) then [] else Keyed(Batch(last))
  }

  lemma NothingKeyed()
    ensures Keyed([]) == AddAll([], [])
  {
  }

  /** Per user and key, the stored rows are exactly the first occurrences of the announcements. */
  lemma {:induction false} StoredAreFirstOccurrences(sends: seq<Send>)
    ensures Keyed(After(sends)) == AddAll([], Announced(sends))
    ensures Distinct(Keyed(After(sends)))
  {
    hide Refused, Batch, Keyed, AddAll, Accepted, Distinct;
    if sends == [] {
      NothingKeyed();
    } else {
      var front, last := sends[..|sends| - 1], sends[|sends| - 1];
      StoredAreFirstOccurrences(front);
      if !Refused(last) {
        BatchAddsNewKeys(After(front), Batch(last));
        AddAllConcat([], Announced(front), Keyed(Batch(last)));
      } else {
        assert After(front) + [] == After(front) && Announced(front) + [] == Announced(front);
      }
    }
    NothingRepeats<(UserId, string)>();
    AddAllDistinct([], Announced(sends));
  }

  lemma {:induction false} DistinctOnce<T>(s: seq<T>, x: T)
    requires Distinct(s)
    ensures multiset(s)[x] == if x in s then 1 else 0
  {
    if s != [] {
      DistinctOnce(s[1..], x);
      assert s == [s[0]] + s[1..];
    }
  }

  /** How often a user has a row for a key: never twice, whatever the run. */
  lemma AnnouncedAtMostOnce(sends: seq<Send>, u: UserId, k: string)
    ensures multiset(Keyed(After(sends)))[(u, k)] == if (u, k) in Announced(sends) then 1 else 0
  {
    StoredAreFirstOccurrences(sends);
    DistinctOnce(Keyed(After(sends)), (u, k));
  }
}
