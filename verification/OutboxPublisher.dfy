/** The outbox repository and its publisher as they run: statements update the table in place, and the publisher
    loops over a batch. */
module OutboxPublisher {
  import opened Common
  import opened Outbox
  import opened Selection

  predicate Eligible(rows: Table, locked: set<RowId>, now: real, id: RowId) {
    id in rows && id !in locked && Claimable(rows[id], now)
  }

  /** The rows a publisher may claim, each with its age. */
  function Eligibles(rows: Table, locked: set<RowId>, now: real): (ages: map<RowId, real>)
    ensures forall id :: id in ages <==> Eligible(rows, locked, now, id)
  {
    map id | id in rows && Eligible(rows, locked, now, id) :: rows[id].createdAt
  }

  predicate SameEvent(a: Row, b: Row) {
    a.eventId == b.eventId && a.createdAt == b.createdAt
  }

  predicate Waiting(r: Row) {
    r.publishedAt.None? && r.deadLetteredAt.None?
  }

  predicate IsDead(r: Row) {
    r.deadLetteredAt.Some? && r.publishedAt.None?
  }

  class OutboxRepository {
    var rows: Table

    constructor ()
      ensures rows == map[]
    {
      rows := map[];
    }

    method Add(id: RowId, eventId: EventId, now: real)
      requires id !in rows
      modifies this
      ensures rows == old(rows)[id := Row(eventId, now, None, None, 0, None)]
    {
      rows := rows[id := Row(eventId, now, None, None, 0, None)];
    }

    /** Selects under lock, oldest first, skipping rows other publishers have locked, and leases what it selected: no
        row it claimed can be claimed again before the lease ends, and no other row changes. */
    method ClaimUnpublished(locked: set<RowId>, now: real, limit: nat, leaseUntil: real) returns (claimed: seq<RowId>)
      modifies this
      ensures IsFirst(Eligibles(old(rows), locked, now), limit, claimed)
      ensures rows == Lease(old(rows), claimed, leaseUntil)
      ensures forall id, later :: id in claimed ==> id in rows && (Claimable(rows[id], later) <==> leaseUntil <= later)
    {
      claimed := SelectFirst(Eligibles(rows, locked, now), limit);
      rows := Lease(rows, claimed, leaseUntil);
    }

    /** The named rows are published: never claimed again, and up for purging once they are old enough. */
    method MarkPublished(ids: seq<RowId>, now: real)
      modifies this
      ensures rows.Keys == old(rows).Keys
      ensures forall id :: id in rows && id !in ids ==> rows[id] == old(rows)[id]
      ensures forall id :: id in rows && id in ids ==> SameEvent(rows[id], old(rows)[id])
      ensures forall id, later :: id in rows && id in ids ==> !Claimable(rows[id], later)
      ensures forall id, cutoff :: id in rows && id in ids ==> (Purgeable(rows[id], cutoff) <==> now < cutoff)
      ensures forall id :: id in rows && id in ids ==>
        rows[id].attemptCount == old(rows)[id].attemptCount && rows[id].deadLetteredAt == old(rows)[id].deadLetteredAt
      ensures forall id :: id in rows && id in ids ==> rows[id] == Published(old(rows)[id], now)
    {
      rows := map id | id in rows :: if id in ids then Published(rows[id], now) else rows[id];
    }

    /** One more failure is counted on the row, which can be claimed again exactly from the next attempt on. */
    method MarkFailed(id: RowId, nextAttemptAt: real)
      modifies this
      ensures rows.Keys == old(rows).Keys
      ensures forall other :: other in rows && other != id ==> rows[other] == old(rows)[other]
      ensures id in rows ==>
        SameEvent(rows[id], old(rows)[id]) && rows[id].attemptCount == old(rows)[id].attemptCount + 1
      ensures id in rows && Waiting(old(rows)[id]) ==>
        Waiting(rows[id]) && forall later :: Claimable(rows[id], later) <==> nextAttemptAt <= later
      ensures id in rows ==> rows[id] == Failed(old(rows)[id], nextAttemptAt)
    {
      if id in rows {
        rows := rows[id := Failed(rows[id], nextAttemptAt)];
      }
    }

    /** One more failure is counted on the row, which can not be claimed again until it is redriven. */
    method MarkDeadLettered(id: RowId, now: real)
      modifies this
      ensures rows.Keys == old(rows).Keys
      ensures forall other :: other in rows && other != id ==> rows[other] == old(rows)[other]
      ensures id in rows ==>
        SameEvent(rows[id], old(rows)[id]) && rows[id].attemptCount == old(rows)[id].attemptCount + 1
      ensures forall later :: id in rows ==> !Claimable(rows[id], later)
      ensures id in rows && Waiting(old(rows)[id]) ==>
        forall back, later :: Claimable(Redriven(rows[id], back), later) <==> back <= later
      ensures id in rows ==> rows[id] == DeadLettered(old(rows)[id], now)
    {
      if id in rows {
        rows := rows[id := DeadLettered(rows[id], now)];
      }
    }

    /** Exactly the dead unpublished rows named are put back: claimable from now on, with the failures they had. */
    method RedriveDeadLettered(ids: set<RowId>, now: real)
      modifies this
      ensures rows.Keys == old(rows).Keys
      ensures forall id :: id in rows && !(id in ids && IsDead(old(rows)[id])) ==> rows[id] == old(rows)[id]
      ensures forall id :: id in rows && id in ids && IsDead(old(rows)[id]) ==>
        && SameEvent(rows[id], old(rows)[id]) && rows[id].attemptCount == old(rows)[id].attemptCount
        && Waiting(rows[id]) && rows[id].nextAttemptAt == Some(now)
      ensures forall id, later :: id in rows && id in ids && IsDead(old(rows)[id]) ==>
        (Claimable(rows[id], later) <==> now <= later)
    {
      rows := Redrive(rows, ids, now);
    }

    method PurgePublishedBefore(cutoff: real) returns (deleted: nat)
      modifies this
      ensures rows == Purge(old(rows), cutoff)
      ensures forall id :: id in rows <==>
        id in old(rows) && !(old(rows)[id].publishedAt.Some? && old(rows)[id].publishedAt.value < cutoff)
      ensures forall id :: id in rows ==> rows[id] == old(rows)[id]
      ensures deleted == |old(rows)| - |rows|
    {
      var kept := Purge(rows, cutoff);
      FewerKeys(kept, rows);
      deleted := |rows| - |kept|;
      rows := kept;
    }

    /** A failure dead-letters the row once its attempts are used up, and otherwise backs off. */
    method RecordFailure(c: Config, id: RowId, seen: nat, now: real)
      requires c.Valid()
      modifies this
      ensures rows == WithFailure(c, old(rows), id, seen, now)
    {
      if Exhausted(c, seen) {
        MarkDeadLettered(id, now);
      } else {
        MarkFailed(id, now + RetryDelay(c, seen));
      }
    }

    /** The second transaction of a publisher run: mark what was published, then each failure in turn. */
    method SettleTransaction(c: Config, b: Batch, published: seq<RowId>, failures: seq<RowId>, now: real)
      requires c.Valid() && Interleaves(published, failures, b.ids) && Distinct(b.ids)
      requires b.acked == set id | id in published
      requires forall id :: id in b.ids ==> id in b.seen
      modifies this
      ensures rows == Settle(c, old(rows), b, now)
    {
      InterleavingPartitions(published, failures, b.ids);
      ghost var before := rows;
      MarkPublished(published, now);
      var k := 0;
      while k < |failures|
        invariant 0 <= k <= |failures|
        invariant Partly(c, b, failures[..k], before, rows, now)
      {
        var id := failures[k];
        assert id in failures && id !in failures[..k];
        OneMoreFailed(c, b, failures[..k], before, rows, id, now);
        RecordFailure(c, id, b.seen[id], now);
        assert failures[..k + 1] == failures[..k] + [id];
        k := k + 1;
      }
      assert failures[..k] == failures;
      AllFailed(c, b, failures, before, rows, now);
    }
  }

  function WithFailure(c: Config, rows: Table, id: RowId, seen: nat, now: real): (r: Table)
    requires c.Valid()
  {
    if id in rows then rows[id := FailRow(c, rows[id], seen, now)] else rows
  }

  /** The table once the publications and the first few failures of a batch have been written. */
  predicate Partly(c: Config, b: Batch, failed: seq<RowId>, before: Table, rows: Table, now: real)
    requires c.Valid()
  {
    rows.Keys == before.Keys &&
    forall id {:trigger rows[id]} :: id in rows ==> rows[id] == PartlySettled(c, b, failed, before[id], id, now)
  }

  lemma OneMoreFailed(c: Config, b: Batch, failed: seq<RowId>, before: Table, rows: Table, id: RowId, now: real)
    requires c.Valid() && Partly(c, b, failed, before, rows, now)
    requires id in b.ids && id !in b.acked && id !in failed && id in b.seen
    ensures Partly(c, b, failed + [id], before, WithFailure(c, rows, id, b.seen[id], now), now)
  {
  }

  lemma AllFailed(c: Config, b: Batch, failed: seq<RowId>, before: Table, rows: Table, now: real)
    requires c.Valid() && Partly(c, b, failed, before, rows, now)
    requires forall id :: id in b.ids ==> id in b.seen && (id in b.acked || id in failed)
    requires forall id :: id in failed ==> id in b.ids && id !in b.acked
    ensures rows == Settle(c, before, b, now)
  {
  }

  lemma {:induction false} FewerKeys(small: Table, large: Table)
    requires small.Keys <= large.Keys
    ensures |small| <= |large|
  {
    KeySizes(small);
    KeySizes(large);
    SubsetSize(small.Keys, large.Keys);
  }

  lemma KeySizes(rows: Table)
    ensures |rows| == |rows.Keys|
  {
  }

  lemma {:induction false} SubsetSize(small: set<RowId>, large: set<RowId>)
    requires small <= large
    ensures |small| <= |large|
    decreases small
  {
    if small != {} {
      var x :| x in small;
      SubsetSize(small - {x}, large - {x});
    }
  }

  /** A row once the publications and the first few failures of a batch have been written. */
  function PartlySettled(c: Config, b: Batch, failed: seq<RowId>, r: Row, id: RowId, now: real): (after: Row)
    requires c.Valid()
  {
    if id in b.ids && id in b.acked then Published(r, now)
    else if id in failed && id in b.seen then FailRow(c, r, b.seen[id], now)
    else r
  }

  // ---- publishing a batch ----

  /** `whole` is `first` and `second` merged, each kept in order. */
  predicate Interleaves(first: seq<RowId>, second: seq<RowId>, whole: seq<RowId>)
    decreases |whole|
  {
    if whole == [] then first == [] && second == [] else
      var n := |whole| - 1;
      || (first != [] && first[|first| - 1] == whole[n] && Interleaves(first[..|first| - 1], second, whole[..n]))
      || (second != [] && second[|second| - 1] == whole[n] && Interleaves(first, second[..|second| - 1], whole[..n]))
  }

  /** An interleaving shares its elements out: everything goes to exactly one side, and distinct elements stay apart. */
  lemma {:induction false} InterleavingPartitions(first: seq<RowId>, second: seq<RowId>, whole: seq<RowId>)
    requires Interleaves(first, second, whole) && Distinct(whole)
    ensures Distinct(first) && Distinct(second)
    ensures forall id :: id in first ==> id !in second
    ensures forall id :: id in whole <==> id in first || id in second
    ensures |first| + |second| == |whole|
    decreases |whole|
  {
    if whole != [] {
      var n := |whole| - 1;
      var last := whole[n];
      assert whole == whole[..n] + [last];
      assert last !in whole[..n];
      if first != [] && first[|first| - 1] == last && Interleaves(first[..|first| - 1], second, whole[..n]) {
        InterleavingPartitions(first[..|first| - 1], second, whole[..n]);
        assert first == first[..|first| - 1] + [last];
      } else {
        InterleavingPartitions(first, second[..|second| - 1], whole[..n]);
        assert second == second[..|second| - 1] + [last];
      }
    }
  }

  lemma {:induction false} AllOnOneSide(whole: seq<RowId>)
    ensures Interleaves(whole, [], whole)
    decreases |whole|
  {
    if whole != [] {
      AllOnOneSide(whole[..|whole| - 1]);
    }
  }

  /** Publishes a batch in one go, or one by one when that fails, so that a poisoned event holds back no other. The
      two lists it returns are the events in their own order, split by whether the broker took them. */
  method Publish(events: seq<RowId>, batchTaken: bool, taken: RowId -> bool)
    returns (published: seq<RowId>, failures: seq<RowId>)
    ensures Interleaves(published, failures, events)
    ensures batchTaken ==> failures == []
    ensures !batchTaken ==> forall id :: id in published ==> taken(id)
    ensures !batchTaken ==> forall id :: id in failures ==> !taken(id)
  {
    if batchTaken {
      AllOnOneSide(events);
      return events, [];
    }
    published, failures := [], [];
    var i := 0;
    while i < |events|
      invariant 0 <= i <= |events|
      invariant Interleaves(published, failures, events[..i])
      invariant forall id :: id in published ==> taken(id)
      invariant forall id :: id in failures ==> !taken(id)
    {
      assert events[..i + 1][..i] == events[..i];
      if taken(events[i]) {
        assert (published + [events[i]])[..|published|] == published;
        published := published + [events[i]];
      } else {
        assert (failures + [events[i]])[..|failures|] == failures;
        failures := failures + [events[i]];
      }
      i := i + 1;
    }
    assert events[..i] == events;
  }
}
