/** What leases give when every publisher settles before its lease ends, or not at all. */
module OutboxLeases {
  import opened Common
  import opened Outbox

  predicate Active(s: System, b: nat)
    requires b < |s.batches|
  {
    s.batches[b].open && s.clock < s.batches[b].leaseUntil
  }

  /** The row a live claim holds: unsettled, leased until that claim ends, and with the attempts the claim saw. */
  predicate Held(s: System, b: nat, id: RowId)
    requires b < |s.batches|
  {
    && id in s.rows
    && s.rows[id].publishedAt.None? && s.rows[id].deadLetteredAt.None?
    && s.rows[id].nextAttemptAt == Some(s.batches[b].leaseUntil)
    && id in s.batches[b].seen && s.batches[b].seen[id] == s.rows[id].attemptCount
    && id in s.holder && s.holder[id] == b
  }

  predicate BatchOk(s: System, b: nat)
    requires b < |s.batches|
  {
    Active(s, b) ==> forall id :: id in s.batches[b].ids ==> Held(s, b, id)
  }

  /** The attempt budget of one row: it is dead exactly after the configured attempts and one more per redrive. */
  predicate InBudget(c: Config, r: Row, failures: nat, redrives: nat) {
    && r.attemptCount == failures
    && !(r.publishedAt.Some? && r.deadLetteredAt.Some?)
    && (r.deadLetteredAt.Some? ==> failures == c.maxAttempts + redrives)
    && (r.deadLetteredAt.None? && redrives > 0 ==> failures == c.maxAttempts + redrives - 1)
    && (r.deadLetteredAt.None? && redrives == 0 ==> failures < c.maxAttempts)
  }

  predicate RowOk(c: Config, s: System, id: RowId)
    requires id in s.rows
  {
    id in s.failures && id in s.redrives && id in s.committed && InBudget(c, s.rows[id], s.failures[id], s.redrives[id])
  }

  /** The counts of a row that was purged stay within the budget too. */
  predicate CountsOk(c: Config, s: System, id: RowId)
    requires id in s.failures
  {
    id in s.redrives && id in s.committed && s.failures[id] <= c.maxAttempts + s.redrives[id]
  }

  ghost predicate Inv(c: Config, s: System) {
    && (forall id {:trigger s.rows[id]} :: id in s.rows ==> RowOk(c, s, id))
    && (forall id {:trigger s.failures[id]} :: id in s.failures ==> CountsOk(c, s, id))
    && (forall b {:trigger s.batches[b]} :: 0 <= b < |s.batches| ==> BatchOk(s, b))
  }

  /** A step that leaves the rows of live claims, and the claims themselves, alone. */
  lemma BatchUndisturbed(s: System, t: System, b: nat)
    requires b < |s.batches| && b < |t.batches| && BatchOk(s, b)
    requires t.batches[b].ids == s.batches[b].ids && t.batches[b].seen == s.batches[b].seen
    requires t.batches[b].leaseUntil == s.batches[b].leaseUntil && (t.batches[b].open ==> s.batches[b].open)
    requires s.clock <= t.clock
    requires forall id :: Held(s, b, id) && Active(t, b) && id in t.batches[b].ids ==>
             id in t.rows && t.rows[id] == s.rows[id]
    requires forall id :: Held(s, b, id) && Active(t, b) && id in t.batches[b].ids ==>
             id in t.holder && t.holder[id] == b
    ensures BatchOk(t, b)
  {
    if Active(t, b) {
      forall id | id in t.batches[b].ids ensures Held(t, b, id) {
        assert Held(s, b, id);
      }
    }
  }

  lemma ClaimKeeps(c: Config, s: System, ids: seq<RowId>)
    requires c.Valid() && Inv(c, s) && Enabled(s, Claim(ids))
    ensures Inv(c, DoClaim(c, s, ids))
  {
    var t := DoClaim(c, s, ids);
    forall id | id in t.rows ensures RowOk(c, t, id) {
      assert RowOk(c, s, id);
    }
    forall id | id in t.failures ensures CountsOk(c, t, id) {
      assert CountsOk(c, s, id);
    }
    forall b | 0 <= b < |t.batches| ensures BatchOk(t, b) {
      if b < |s.batches| {
        assert t.batches[b] == s.batches[b];
        BatchUndisturbed(s, t, b);
      }
    }
  }

  lemma SettledInBudget(c: Config, s: System, b: nat, id: RowId)
    requires c.Valid() && Inv(c, s) && Enabled(s, SettleBatch(b)) && Timely(s, SettleBatch(b)) && id in s.rows
    ensures RowOk(c, DoSettle(c, s, b), id)
  {
    assert RowOk(c, s, id) && BatchOk(s, b);
    if id in s.batches[b].ids {
      assert Held(s, b, id);
    }
  }

  lemma SettleKeeps(c: Config, s: System, b: nat)
    requires c.Valid() && Inv(c, s) && Enabled(s, SettleBatch(b)) && Timely(s, SettleBatch(b))
    ensures Inv(c, DoSettle(c, s, b))
  {
    var t := DoSettle(c, s, b);
    forall id | id in t.rows ensures RowOk(c, t, id) {
      SettledInBudget(c, s, b, id);
    }
    forall id | id in t.failures ensures CountsOk(c, t, id) {
      assert CountsOk(c, s, id);
      if id in s.rows {
        SettledInBudget(c, s, b, id);
      }
    }
    assert BatchOk(s, b);
    forall k | 0 <= k < |t.batches| ensures BatchOk(t, k) {
      assert BatchOk(s, k);
      if k != b {
        assert t.batches[k] == s.batches[k];
        forall id | id in s.batches[b].ids ensures !Held(s, k, id) {
          assert Held(s, b, id);
        }
        BatchUndisturbed(s, t, k);
      }
    }
  }

  lemma RedriveKeeps(c: Config, s: System, ids: set<RowId>)
    requires c.Valid() && Inv(c, s)
    ensures Inv(c, Apply(c, s, RedriveRows(ids)))
  {
    var t := Apply(c, s, RedriveRows(ids));
    forall id | id in t.rows ensures RowOk(c, t, id) {
      assert RowOk(c, s, id);
    }
    forall id | id in t.failures ensures CountsOk(c, t, id) {
      assert CountsOk(c, s, id);
    }
    forall b | 0 <= b < |t.batches| ensures BatchOk(t, b) {
      BatchUndisturbed(s, t, b);
    }
  }

  /** Every other step: none changes a row that is neither new nor published. */
  lemma QuietKeeps(c: Config, s: System, a: Action)
    requires c.Valid() && Inv(c, s) && Enabled(s, a)
    requires a.Add? || a.Acknowledge? || a.Crash? || a.PurgeBefore? || a.Tick?
    requires s.rows.Keys <= s.committed.Keys
    ensures Inv(c, Apply(c, s, a))
  {
    var t := Apply(c, s, a);
    forall id | id in t.rows ensures RowOk(c, t, id) {
      if id in s.rows {
        assert RowOk(c, s, id);
      }
    }
    forall id | id in t.failures ensures CountsOk(c, t, id) {
      if id in s.failures {
        assert CountsOk(c, s, id);
      }
    }
    forall b | 0 <= b < |t.batches| ensures BatchOk(t, b) {
      BatchUndisturbed(s, t, b);
    }
  }

  lemma RowsCommitted(c: Config, s: System)
    requires Inv(c, s)
    ensures s.rows.Keys <= s.committed.Keys
  {
    forall id | id in s.rows ensures id in s.committed {
      assert RowOk(c, s, id);
    }
  }

  lemma ApplyKeeps(c: Config, s: System, a: Action)
    requires c.Valid() && Inv(c, s) && Timely(s, a)
    ensures Inv(c, Apply(c, s, a))
  {
    if Enabled(s, a) {
      RowsCommitted(c, s);
      match a
      case Claim(ids) => ClaimKeeps(c, s, ids);
      case SettleBatch(b) => SettleKeeps(c, s, b);
      case RedriveRows(ids) => RedriveKeeps(c, s, ids);
      case _ => QuietKeeps(c, s, a);
    }
  }

  lemma {:induction false} RunKeeps(c: Config, s: System, actions: seq<Action>)
    requires c.Valid() && Inv(c, s) && TimelyRun(c, s, actions)
    ensures Inv(c, Run(c, s, actions))
    decreases |actions|
  {
    if actions != [] {
      ApplyKeeps(c, s, actions[0]);
      RunKeeps(c, Apply(c, s, actions[0]), actions[1..]);
    }
  }

  // ---- main results ----

  /** No event is held by two unexpired claims. */
  lemma LeasesAreExclusive(c: Config, actions: seq<Action>, a: nat, b: nat, id: RowId)
    requires c.Valid() && TimelyRun(c, EMPTY, actions)
    requires a < |Run(c, EMPTY, actions).batches| && b < |Run(c, EMPTY, actions).batches|
    requires Active(Run(c, EMPTY, actions), a) && Active(Run(c, EMPTY, actions), b)
    requires id in Run(c, EMPTY, actions).batches[a].ids && id in Run(c, EMPTY, actions).batches[b].ids
    ensures a == b
  {
    var s := Run(c, EMPTY, actions);
    RunKeeps(c, EMPTY, actions);
    assert BatchOk(s, a) && BatchOk(s, b);
    assert Held(s, a, id) && Held(s, b, id);
  }

  /** No row is both published and dead-lettered, its attempt count is the number of failed settlements, and it is dead
      exactly after the configured attempts plus one per redrive. */
  lemma BudgetIsExact(c: Config, actions: seq<Action>, id: RowId)
    requires c.Valid() && TimelyRun(c, EMPTY, actions) && id in Run(c, EMPTY, actions).rows
    ensures var s := Run(c, EMPTY, actions);
            id in s.failures && id in s.redrives && InBudget(c, s.rows[id], s.failures[id], s.redrives[id])
  {
    RunKeeps(c, EMPTY, actions);
    assert RowOk(c, Run(c, EMPTY, actions), id);
  }

  /** Failed settlements never exceed the configured attempts plus the number of redrives, purged rows included. */
  lemma FailuresAreBounded(c: Config, actions: seq<Action>, id: RowId)
    requires c.Valid() && TimelyRun(c, EMPTY, actions) && id in Run(c, EMPTY, actions).failures
    ensures var s := Run(c, EMPTY, actions);
            id in s.redrives && s.failures[id] <= c.maxAttempts + s.redrives[id]
  {
    RunKeeps(c, EMPTY, actions);
    assert CountsOk(c, Run(c, EMPTY, actions), id);
  }

  // ---- exactly when a settlement breaks the exclusion ----

  predicate BothFates(r: Row) {
    r.publishedAt.Some? && r.deadLetteredAt.Some?
  }

  /** No row is both published and dead-lettered. */
  predicate Exclusive(s: System) {
    forall id :: id in s.rows ==> !BothFates(s.rows[id])
  }

  /** The settlement would publish a dead row, or dead-letter a published one. */
  predicate ClashesOn(c: Config, b: Batch, id: RowId, r: Row) {
    if id in b.acked then r.deadLetteredAt.Some?
    else id in b.seen && Exhausted(c, b.seen[id]) && r.publishedAt.Some?
  }

  predicate Clashes(c: Config, s: System, a: Action) {
    a.SettleBatch? && Enabled(s, a) &&
    exists id :: id in s.rows && id in s.batches[a.batch].ids && ClashesOn(c, s.batches[a.batch], id, s.rows[id])
  }

  lemma RowClashes(c: Config, b: Batch, id: RowId, r: Row, now: real)
    requires c.Valid() && !BothFates(r)
    ensures BothFates(SettleRow(c, b, id, r, now)) <==> id in b.ids && ClashesOn(c, b, id, r)
  {
  }

  /** A step keeps the two fates apart exactly when it is no such settlement. */
  lemma ExclusiveUnlessClash(c: Config, s: System, a: Action)
    requires c.Valid() && Exclusive(s)
    ensures Exclusive(Apply(c, s, a)) <==> !Clashes(c, s, a)
  {
    var t := Apply(c, s, a);
    if a.SettleBatch? && Enabled(s, a) {
      forall id | id in s.rows
        ensures BothFates(t.rows[id]) <==>
                id in s.batches[a.batch].ids && ClashesOn(c, s.batches[a.batch], id, s.rows[id])
      {
        RowClashes(c, s.batches[a.batch], id, s.rows[id], s.clock);
      }
      if Clashes(c, s, a) {
        var id :| id in s.rows && id in s.batches[a.batch].ids && ClashesOn(c, s.batches[a.batch], id, s.rows[id]);
        assert id in t.rows && BothFates(t.rows[id]);
      }
    }
  }

  /** The two fates stay apart at every point of the run. */
  predicate AlwaysExclusive(c: Config, s: System, actions: seq<Action>)
    requires c.Valid()
    decreases |actions|
  {
    Exclusive(s) && (actions != [] ==> AlwaysExclusive(c, Apply(c, s, actions[0]), actions[1..]))
  }

  predicate NeverClashes(c: Config, s: System, actions: seq<Action>)
    requires c.Valid()
    decreases |actions|
  {
    actions != [] ==> !Clashes(c, s, actions[0]) && NeverClashes(c, Apply(c, s, actions[0]), actions[1..])
  }

  /** So they stay apart throughout a run exactly when none of its settlements clashes, on time or late. */
  lemma {:induction false} ExclusiveThroughoutExactlyWhen(c: Config, s: System, actions: seq<Action>)
    requires c.Valid() && Exclusive(s)
    ensures AlwaysExclusive(c, s, actions) <==> NeverClashes(c, s, actions)
    decreases |actions|
  {
    if actions != [] {
      ExclusiveUnlessClash(c, s, actions[0]);
      if !Clashes(c, s, actions[0]) {
        ExclusiveThroughoutExactlyWhen(c, Apply(c, s, actions[0]), actions[1..]);
      }
    }
  }

  lemma TimelyNeverClashes(c: Config, s: System, a: Action)
    requires c.Valid() && Inv(c, s) && Timely(s, a)
    ensures !Clashes(c, s, a)
  {
    if a.SettleBatch? && Enabled(s, a) {
      var b := a.batch;
      assert BatchOk(s, b);
      forall id | id in s.rows && id in s.batches[b].ids ensures !ClashesOn(c, s.batches[b], id, s.rows[id]) {
        assert Held(s, b, id);
      }
    }
  }

  /** Settling on time is one way never to clash. */
  lemma {:induction false} TimelyRunsNeverClash(c: Config, s: System, actions: seq<Action>)
    requires c.Valid() && Inv(c, s) && TimelyRun(c, s, actions)
    ensures NeverClashes(c, s, actions)
    decreases |actions|
  {
    if actions != [] {
      TimelyNeverClashes(c, s, actions[0]);
      ApplyKeeps(c, s, actions[0]);
      TimelyRunsNeverClash(c, Apply(c, s, actions[0]), actions[1..]);
    }
  }

  // ---- exactly when a settlement breaks the budget ----

  ghost predicate RowsInBudget(c: Config, s: System) {
    forall id {:trigger s.rows[id]} :: id in s.rows ==> RowOk(c, s, id)
  }

  /** The settlement publishes a dead row, or records a failure on a row that is dead, is published on its last attempt,
      or disagrees with the claim on whether this is its last attempt. */
  predicate MiscountsOn(c: Config, b: Batch, id: RowId, r: Row) {
    if id in b.acked then r.deadLetteredAt.Some?
    else
      && id in b.seen
      && (|| r.deadLetteredAt.Some?
          || (r.publishedAt.Some? && Exhausted(c, b.seen[id]))
          || (Exhausted(c, b.seen[id]) != Exhausted(c, r.attemptCount)))
  }

  predicate Miscounts(c: Config, s: System, a: Action) {
    a.SettleBatch? && Enabled(s, a) &&
    exists id :: id in s.rows && id in s.batches[a.batch].ids && MiscountsOn(c, s.batches[a.batch], id, s.rows[id])
  }

  lemma RowMiscounts(c: Config, b: Batch, id: RowId, r: Row, failures: nat, redrives: nat, now: real)
    requires c.Valid() && InBudget(c, r, failures, redrives) && id in b.ids
    ensures var fails := id in b.seen && id !in b.acked;
            InBudget(c, SettleRow(c, b, id, r, now), failures + (if fails then 1 else 0), redrives) <==>
            !MiscountsOn(c, b, id, r)
  {
  }

  lemma SettleInBudgetUnless(c: Config, s: System, b: nat, id: RowId)
    requires c.Valid() && RowsInBudget(c, s) && Enabled(s, SettleBatch(b)) && id in s.rows
    ensures RowOk(c, DoSettle(c, s, b), id) <==>
            !(id in s.batches[b].ids && MiscountsOn(c, s.batches[b], id, s.rows[id]))
  {
    assert RowOk(c, s, id);
    if id in s.batches[b].ids {
      RowMiscounts(c, s.batches[b], id, s.rows[id], s.failures[id], s.redrives[id], s.clock);
    }
  }

  lemma OthersStayInBudget(c: Config, s: System, a: Action)
    requires c.Valid() && RowsInBudget(c, s) && Enabled(s, a) && !a.SettleBatch?
    ensures RowsInBudget(c, Apply(c, s, a))
  {
    var t := Apply(c, s, a);
    forall id | id in t.rows ensures RowOk(c, t, id) {
      if id in s.rows {
        assert RowOk(c, s, id);
      }
    }
  }

  /** A step keeps every row within its exact budget precisely when it is no such settlement. */
  lemma BudgetUnlessMiscounted(c: Config, s: System, a: Action)
    requires c.Valid() && RowsInBudget(c, s)
    ensures RowsInBudget(c, Apply(c, s, a)) <==> !Miscounts(c, s, a)
  {
    if Enabled(s, a) {
      if !a.SettleBatch? {
        OthersStayInBudget(c, s, a);
      } else {
        var t := Apply(c, s, a);
        forall id | id in s.rows
          ensures RowOk(c, t, id) <==>
                  !(id in s.batches[a.batch].ids && MiscountsOn(c, s.batches[a.batch], id, s.rows[id]))
        {
          SettleInBudgetUnless(c, s, a.batch, id);
        }
        if Miscounts(c, s, a) {
          var id :| id in s.rows && id in s.batches[a.batch].ids && MiscountsOn(c, s.batches[a.batch], id, s.rows[id]);
          assert id in t.rows && !RowOk(c, t, id);
        }
      }
    }
  }

  ghost predicate AlwaysInBudget(c: Config, s: System, actions: seq<Action>)
    requires c.Valid()
    decreases |actions|
  {
    RowsInBudget(c, s) && (actions != [] ==> AlwaysInBudget(c, Apply(c, s, actions[0]), actions[1..]))
  }

  predicate NeverMiscounts(c: Config, s: System, actions: seq<Action>)
    requires c.Valid()
    decreases |actions|
  {
    actions != [] ==> !Miscounts(c, s, actions[0]) && NeverMiscounts(c, Apply(c, s, actions[0]), actions[1..])
  }

  /** Every row stays within its exact budget throughout a run precisely when no settlement of it miscounts. */
  lemma {:induction false} BudgetThroughoutExactlyWhen(c: Config, s: System, actions: seq<Action>)
    requires c.Valid() && RowsInBudget(c, s)
    ensures AlwaysInBudget(c, s, actions) <==> NeverMiscounts(c, s, actions)
    decreases |actions|
  {
    if actions != [] {
      BudgetUnlessMiscounted(c, s, actions[0]);
      if !Miscounts(c, s, actions[0]) {
        BudgetThroughoutExactlyWhen(c, Apply(c, s, actions[0]), actions[1..]);
      }
    }
  }

  // ---- exactly when a settlement breaks a lease ----

  /** Every live claim holds all its rows. */
  ghost predicate Intact(s: System) {
    forall b {:trigger s.batches[b]} :: 0 <= b < |s.batches| ==> BatchOk(s, b)
  }

  /** The settlement writes a row that another live claim holds. */
  ghost predicate Intrudes(s: System, a: Action) {
    a.SettleBatch? && Enabled(s, a) &&
    exists k, id ::
      && 0 <= k < |s.batches| && k != a.batch && Active(s, k) && id in s.batches[k].ids
      && id in s.batches[a.batch].ids && (id in s.batches[a.batch].acked || id in s.batches[a.batch].seen)
  }

  lemma IntrusionBreaks(c: Config, s: System, b: nat, k: nat, id: RowId)
    requires c.Valid() && Intact(s) && Enabled(s, SettleBatch(b))
    requires k < |s.batches| && k != b && Active(s, k) && id in s.batches[k].ids && id in s.batches[b].ids
    requires id in s.batches[b].acked || id in s.batches[b].seen
    ensures !Intact(DoSettle(c, s, b))
  {
    var t := DoSettle(c, s, b);
    assert BatchOk(s, k) && Held(s, k, id);
    assert t.batches[k] == s.batches[k] && Active(t, k);
    assert t.rows[id] == SettleRow(c, s.batches[b], id, s.rows[id], s.clock);
    assert !Held(t, k, id);
    assert !BatchOk(t, k);
  }

  lemma SettleStaysIntact(c: Config, s: System, b: nat)
    requires c.Valid() && Intact(s) && Enabled(s, SettleBatch(b)) && !Intrudes(s, SettleBatch(b))
    ensures Intact(DoSettle(c, s, b))
  {
    var t := DoSettle(c, s, b);
    forall k | 0 <= k < |t.batches| ensures BatchOk(t, k) {
      assert BatchOk(s, k);
      if k != b {
        assert t.batches[k] == s.batches[k];
        if Active(t, k) {
          forall id | id in t.batches[k].ids ensures t.rows[id] == s.rows[id] && id in t.rows {
            assert Held(s, k, id);
          }
        }
        BatchUndisturbed(s, t, k);
      }
    }
  }

  lemma OthersStayIntact(c: Config, s: System, a: Action)
    requires c.Valid() && Intact(s) && Enabled(s, a) && !a.SettleBatch? && s.rows.Keys <= s.committed.Keys
    ensures Intact(Apply(c, s, a))
  {
    var t := Apply(c, s, a);
    forall b | 0 <= b < |t.batches| ensures BatchOk(t, b) {
      if b < |s.batches| {
        assert BatchOk(s, b);
        BatchUndisturbed(s, t, b);
      }
    }
  }

  /** A step leaves every live claim its rows exactly when it is no settlement that writes one of them. */
  lemma IntactUnlessIntruded(c: Config, s: System, a: Action)
    requires c.Valid() && Intact(s) && s.rows.Keys <= s.committed.Keys
    ensures Intact(Apply(c, s, a)) <==> !Intrudes(s, a)
  {
    if Enabled(s, a) {
      if !a.SettleBatch? {
        OthersStayIntact(c, s, a);
      } else if Intrudes(s, a) {
        var k, id :|
          && 0 <= k < |s.batches| && k != a.batch && Active(s, k) && id in s.batches[k].ids
          && id in s.batches[a.batch].ids && (id in s.batches[a.batch].acked || id in s.batches[a.batch].seen);
        IntrusionBreaks(c, s, a.batch, k, id);
      } else {
        SettleStaysIntact(c, s, a.batch);
      }
    }
  }

  ghost predicate AlwaysIntact(c: Config, s: System, actions: seq<Action>)
    requires c.Valid()
    decreases |actions|
  {
    Intact(s) && (actions != [] ==> AlwaysIntact(c, Apply(c, s, actions[0]), actions[1..]))
  }

  ghost predicate NeverIntrudes(c: Config, s: System, actions: seq<Action>)
    requires c.Valid()
    decreases |actions|
  {
    actions != [] ==> !Intrudes(s, actions[0]) && NeverIntrudes(c, Apply(c, s, actions[0]), actions[1..])
  }

  /** Every live claim keeps its rows throughout a run exactly when no settlement writes another claim's row. */
  lemma {:induction false} IntactThroughoutExactlyWhen(c: Config, s: System, actions: seq<Action>)
    requires c.Valid() && Intact(s) && s.rows.Keys <= s.committed.Keys
    ensures AlwaysIntact(c, s, actions) <==> NeverIntrudes(c, s, actions)
    decreases |actions|
  {
    if actions != [] {
      IntactUnlessIntruded(c, s, actions[0]);
      if !Intrudes(s, actions[0]) {
        IntactThroughoutExactlyWhen(c, Apply(c, s, actions[0]), actions[1..]);
      }
    }
  }

  /** While all claims are intact no row is held by two of them. */
  lemma IntactClaimsAreExclusive(s: System, a: nat, b: nat, id: RowId)
    requires Intact(s) && a < |s.batches| && b < |s.batches| && Active(s, a) && Active(s, b)
    requires id in s.batches[a].ids && id in s.batches[b].ids
    ensures a == b
  {
    assert BatchOk(s, a) && BatchOk(s, b);
    assert Held(s, a, id) && Held(s, b, id);
  }

  // ---- the lease assumption is needed ----

  const HASTY := Config(1, 60.0, 2.0)

  /** One publisher claims a row, is acknowledged, and stalls past its lease; a second claims the row and dead-letters
      it. */
  const STALLED_RUN: seq<Action> := [Add(0, 7), Claim([0]), Acknowledge(0, 0), Tick(60.0), Claim([0]), SettleBatch(1)]

  const STALLED_BATCH := Batch([0], map[0 := 0], 60.0, {0}, true)

  predicate Stalled(s: System) {
    && s.rows == map[0 := Row(7, 0.0, None, None, 0, Some(60.0))] && s.batches == [STALLED_BATCH] && s.clock == 60.0
    && s.holder == map[0 := 0]
  }

  predicate Overtaken(s: System) {
    && s.rows == map[0 := Row(7, 0.0, None, Some(60.0), 1, None)]
    && |s.batches| == 2 && s.batches[0] == STALLED_BATCH && s.clock == 60.0
  }

  lemma FirstClaims(s: System)
    requires s == Apply(HASTY, Apply(HASTY, EMPTY, Add(0, 7)), Claim([0]))
    ensures Stalled(Apply(HASTY, Apply(HASTY, s, Acknowledge(0, 0)), Tick(60.0)))
  {
    assert s.rows == map[0 := Row(7, 0.0, None, None, 0, Some(60.0))];
    assert s.batches[0].seen == map[0 := 0];
    assert s.batches == [Batch([0], map[0 := 0], 60.0, {}, true)];
    var t := Apply(HASTY, s, Acknowledge(0, 0));
    assert t.batches[0].acked == {0};
    assert t.batches == [STALLED_BATCH];
  }

  predicate Reclaimed(s: System) {
    && s.rows == map[0 := Row(7, 0.0, None, None, 0, Some(120.0))]
    && s.batches == [STALLED_BATCH, Batch([0], map[0 := 0], 120.0, {}, true)] && s.clock == 60.0
    && s.holder == map[0 := 1]
  }

  lemma SecondClaims(s: System)
    requires Stalled(s)
    ensures Reclaimed(Apply(HASTY, s, Claim([0])))
  {
    assert Enabled(s, Claim([0]));
    var t := Apply(HASTY, s, Claim([0]));
    assert t.rows == map[0 := Row(7, 0.0, None, None, 0, Some(120.0))];
    assert t.batches[1].seen == map[0 := 0];
  }

  /** The stalled publisher's settlement would write the row that the second claim holds. */
  lemma ReclaimedIsIntruded(s: System)
    requires Reclaimed(s)
    ensures Intact(s) && Intrudes(s, SettleBatch(0)) && !Intact(Apply(HASTY, s, SettleBatch(0)))
  {
    assert Held(s, 1, 0);
    assert BatchOk(s, 0) && BatchOk(s, 1);
    assert Active(s, 1) && 0 in s.batches[1].ids && 0 in s.batches[0].ids;
    IntrusionBreaks(HASTY, s, 0, 1, 0);
  }

  lemma SecondDeadLetters(s: System)
    requires Reclaimed(s)
    ensures Overtaken(Apply(HASTY, s, SettleBatch(1)))
  {
    var u := Apply(HASTY, s, SettleBatch(1));
    assert u.rows[0] == Row(7, 0.0, None, Some(60.0), 1, None);
    assert u.rows == map[0 := Row(7, 0.0, None, Some(60.0), 1, None)];
  }

  lemma UnfoldRun(c: Config, s: System, a0: Action, a1: Action, a2: Action, a3: Action, a4: Action, a5: Action)
    requires c.Valid()
    ensures Run(c, s, [a0, a1, a2, a3, a4, a5]) ==
            Apply(c, Apply(c, Apply(c, Apply(c, Apply(c, Apply(c, s, a0), a1), a2), a3), a4), a5)
  {
    assert [a0, a1, a2, a3, a4, a5] == [a0, a1, a2] + [a3, a4, a5];
    UnfoldThree(c, s, a0, a1, a2, [a3, a4, a5]);
    UnfoldThree(c, Apply(c, Apply(c, Apply(c, s, a0), a1), a2), a3, a4, a5, []);
  }

  lemma UnfoldThree(c: Config, s: System, a: Action, b: Action, d: Action, rest: seq<Action>)
    requires c.Valid()
    ensures Run(c, s, [a, b, d] + rest) == Run(c, Apply(c, Apply(c, Apply(c, s, a), b), d), rest)
    ensures rest == [] ==> [a, b, d] + rest == [a, b, d]
  {
    var all := [a, b, d] + rest;
    var s1 := Apply(c, s, a);
    var s2 := Apply(c, s1, b);
    assert all[1..] == [b, d] + rest;
    assert Run(c, s, all) == Run(c, s1, [b, d] + rest);
    assert ([b, d] + rest)[1..] == [d] + rest;
    assert Run(c, s1, [b, d] + rest) == Run(c, s2, [d] + rest);
    assert ([d] + rest)[1..] == rest;
  }

  /** When the stalled publisher settles while the second one still holds the row, it takes the row from it. */
  lemma LateSettlementIntrudes()
    ensures var s := Run(HASTY, EMPTY, STALLED_RUN[..5]);
            Intact(s) && Intrudes(s, SettleBatch(0)) && !Intact(Apply(HASTY, s, SettleBatch(0)))
  {
    var s := Apply(HASTY, Apply(HASTY, EMPTY, Add(0, 7)), Claim([0]));
    FirstClaims(s);
    var stalled := Apply(HASTY, Apply(HASTY, s, Acknowledge(0, 0)), Tick(60.0));
    SecondClaims(stalled);
    assert STALLED_RUN[..5] == [Add(0, 7), Claim([0]), Acknowledge(0, 0)] + [Tick(60.0), Claim([0])];
    UnfoldThree(HASTY, EMPTY, Add(0, 7), Claim([0]), Acknowledge(0, 0), [Tick(60.0), Claim([0])]);
    UnfoldTwo(HASTY, Apply(HASTY, s, Acknowledge(0, 0)), Tick(60.0), Claim([0]));
    ReclaimedIsIntruded(Run(HASTY, EMPTY, STALLED_RUN[..5]));
  }

  lemma UnfoldTwo(c: Config, s: System, a: Action, b: Action)
    requires c.Valid()
    ensures Run(c, s, [a, b]) == Apply(c, Apply(c, s, a), b)
  {
    assert [a, b][1..] == [b] && [b][1..] == [];
    assert Run(c, s, [a, b]) == Run(c, Apply(c, s, a), [b]);
  }

  /** When the stalled publisher then settles late, the row ends both published and dead-lettered. */
  lemma LateSettlementBreaksExclusion()
    ensures var s := Run(HASTY, EMPTY, STALLED_RUN);
            && !Timely(s, SettleBatch(0))
            && var t := Apply(HASTY, s, SettleBatch(0));
               0 in t.rows && t.rows[0].publishedAt.Some? && t.rows[0].deadLetteredAt.Some?
  {
    var s := Apply(HASTY, Apply(HASTY, EMPTY, Add(0, 7)), Claim([0]));
    FirstClaims(s);
    var stalled := Apply(HASTY, Apply(HASTY, s, Acknowledge(0, 0)), Tick(60.0));
    SecondClaims(stalled);
    SecondDeadLetters(Apply(HASTY, stalled, Claim([0])));
    UnfoldRun(HASTY, EMPTY, Add(0, 7), Claim([0]), Acknowledge(0, 0), Tick(60.0), Claim([0]), SettleBatch(1));
    LateSettlement(Run(HASTY, EMPTY, STALLED_RUN));
  }

  lemma LateSettlement(s: System)
    requires Overtaken(s)
    ensures !Timely(s, SettleBatch(0))
    ensures var t := Apply(HASTY, s, SettleBatch(0));
            0 in t.rows && t.rows[0].publishedAt.Some? && t.rows[0].deadLetteredAt.Some?
  {
  }
}
