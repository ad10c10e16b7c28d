/** The transactional outbox: rows, the statements that change them, and several publishers over one table. */
module Outbox {
  import opened Common

  type RowId = nat
  type EventId = nat

  datatype Row = Row(
    eventId: EventId,
    createdAt: real,
    publishedAt: Option<real>,
    deadLetteredAt: Option<real>,
    attemptCount: nat,
    nextAttemptAt: Option<real>)

  type Table = map<RowId, Row>

  datatype Config = Config(maxAttempts: nat, leaseSeconds: real, retryBaseSeconds: real) {
    predicate Valid() {
      maxAttempts >= 1 && leaseSeconds > 0.0 && retryBaseSeconds > 0.0
    }
  }

  const MAX_RETRY_DELAY_SECONDS := 300.0

  // ---- statements ----

  predicate Claimable(r: Row, now: real) {
    r.publishedAt.None? && r.deadLetteredAt.None? && (r.nextAttemptAt.None? || r.nextAttemptAt.value <= now)
  }

  function Lease(rows: Table, ids: seq<RowId>, until: real): (r: Table) {
    map id | id in rows :: if id in ids then rows[id].(nextAttemptAt := Some(until)) else rows[id]
  }

  function Published(r: Row, now: real): (after: Row) {
    r.(publishedAt := Some(now), nextAttemptAt := None)
  }

  function Failed(r: Row, nextAttemptAt: real): (after: Row) {
    r.(attemptCount := r.attemptCount + 1, nextAttemptAt := Some(nextAttemptAt))
  }

  function DeadLettered(r: Row, now: real): (after: Row) {
    r.(attemptCount := r.attemptCount + 1, nextAttemptAt := None, deadLetteredAt := Some(now))
  }

  function Redriven(r: Row, now: real): (after: Row) {
    if r.deadLetteredAt.Some? && r.publishedAt.None? then r.(deadLetteredAt := None, nextAttemptAt := Some(now)) else r
  }

  function Redrive(rows: Table, ids: set<RowId>, now: real): (r: Table) {
    map id | id in rows :: if id in ids then Redriven(rows[id], now) else rows[id]
  }

  predicate Purgeable(r: Row, cutoff: real) {
    r.publishedAt.Some? && r.publishedAt.value < cutoff
  }

  function Purge(rows: Table, cutoff: real): (r: Table) {
    map id | id in rows && !Purgeable(rows[id], cutoff) :: rows[id]
  }

  /** A purge keeps exactly the rows not published before the cutoff, as they are. */
  lemma PurgeOutcome(rows: Table, cutoff: real, id: RowId)
    ensures id in Purge(rows, cutoff) <==>
            id in rows && !(rows[id].publishedAt.Some? && rows[id].publishedAt.value < cutoff)
    ensures id in Purge(rows, cutoff) ==> Purge(rows, cutoff)[id] == rows[id]
  {
  }

  // ---- backoff ----

  function PowerOfTwo(n: nat): (p: real)
    ensures p >= 1.0
  {
    if n == 0 then 1.0 else 2.0 * PowerOfTwo(n - 1)
  }

  function Capped(base: real, factor: real): (delay: real)
    ensures base > 0.0 && factor > 0.0 ==> 0.0 < delay <= MAX_RETRY_DELAY_SECONDS
  {
    if base * factor <= MAX_RETRY_DELAY_SECONDS then base * factor else MAX_RETRY_DELAY_SECONDS
  }

  lemma CappedGrows(base: real, a: real, b: real)
    requires base > 0.0 && a <= b
    ensures Capped(base, a) <= Capped(base, b)
  {
    assert base * a <= base * b;
  }

  /** Exponential backoff after the given number of earlier failures, capped twice. */
  function RetryDelay(c: Config, attemptCount: nat): (delay: real)
    requires c.Valid()
    ensures 0.0 < delay <= MAX_RETRY_DELAY_SECONDS
  {
    Capped(c.retryBaseSeconds, PowerOfTwo(Doublings(c, attemptCount)))
  }

  function Doublings(c: Config, attemptCount: nat): (r: nat)
    requires c.Valid()
  {
    (if attemptCount + 1 <= c.maxAttempts then attemptCount + 1 else c.maxAttempts) - 1
  }

  lemma {:induction false} PowersGrow(m: nat, n: nat)
    requires m <= n
    ensures PowerOfTwo(m) <= PowerOfTwo(n)
    decreases n
  {
    if m < n {
      PowersGrow(m, n - 1);
    }
  }

  /** Later failures never wait less. */
  lemma DelaysGrow(c: Config, fewer: nat, more: nat)
    requires c.Valid() && fewer <= more
    ensures RetryDelay(c, fewer) <= RetryDelay(c, more)
  {
    PowersGrow(Doublings(c, fewer), Doublings(c, more));
    CappedGrows(c.retryBaseSeconds, PowerOfTwo(Doublings(c, fewer)), PowerOfTwo(Doublings(c, more)));
  }

  /** The first failure waits for the base time, each further one twice as long, up to the cap; attempts beyond the
      configured number wait no longer. */
  lemma DelaysDouble(c: Config, attemptCount: nat)
    requires c.Valid()
    ensures RetryDelay(c, 0) == Capped(c.retryBaseSeconds, 1.0)
    ensures attemptCount + 1 < c.maxAttempts ==>
              RetryDelay(c, attemptCount + 1) == Capped(2.0, RetryDelay(c, attemptCount))
    ensures attemptCount + 1 >= c.maxAttempts ==> RetryDelay(c, attemptCount + 1) == RetryDelay(c, attemptCount)
  {
    if attemptCount + 1 < c.maxAttempts {
      var power := PowerOfTwo(attemptCount);
      assert Doublings(c, attemptCount) == attemptCount && Doublings(c, attemptCount + 1) == attemptCount + 1;
      assert PowerOfTwo(attemptCount + 1) == 2.0 * power;
      Doubled(c.retryBaseSeconds, power);
    }
  }

  lemma Doubled(base: real, power: real)
    requires base > 0.0 && power >= 1.0
    ensures Capped(base, 2.0 * power) == Capped(2.0, Capped(base, power))
  {
    assert base * (2.0 * power) == 2.0 * (base * power);
  }

  // ---- settling a batch ----

  /** What a publisher carries between its two transactions: the rows it claimed with the attempts it saw, when its
      lease ends, and the rows whose publication the broker has acknowledged. */
  datatype Batch = Batch(ids: seq<RowId>, seen: map<RowId, nat>, leaseUntil: real, acked: set<RowId>, open: bool)

  predicate Exhausted(c: Config, seen: nat) {
    seen + 1 >= c.maxAttempts
  }

  function FailRow(c: Config, r: Row, seen: nat, now: real): (after: Row)
    requires c.Valid()
  {
    if Exhausted(c, seen) then DeadLettered(r, now) else Failed(r, now + RetryDelay(c, seen))
  }

  function SettleRow(c: Config, b: Batch, id: RowId, r: Row, now: real): (after: Row)
    requires c.Valid()
  {
    if id !in b.ids then r
    else if id in b.acked then Published(r, now)
    else if id in b.seen then FailRow(c, r, b.seen[id], now)
    else r
  }

  function Settle(c: Config, rows: Table, b: Batch, now: real): (r: Table)
    requires c.Valid()
  {
    map id | id in rows :: SettleRow(c, b, id, rows[id], now)
  }

  /** What settling a batch makes of a row, field by field. Rows outside the batch stay; an acknowledged row is
      published; any other counts one more failure, and is dead once the attempts seen at its claim use up the limit. */
  lemma SettleOutcome(c: Config, rows: Table, b: Batch, now: real, id: RowId)
    requires c.Valid() && id in rows && (forall other :: other in b.ids ==> other in b.seen)
    ensures id in Settle(c, rows, b, now)
    ensures var r, t := rows[id], Settle(c, rows, b, now)[id];
            && t.eventId == r.eventId && t.createdAt == r.createdAt
            && (id !in b.ids ==> t == r)
            && (id in b.ids && id in b.acked ==>
                  t.publishedAt == Some(now) && t.nextAttemptAt.None? && t.attemptCount == r.attemptCount &&
                  t.deadLetteredAt == r.deadLetteredAt)
            && (id in b.ids && id !in b.acked ==>
                  && t.publishedAt == r.publishedAt && t.attemptCount == r.attemptCount + 1
                  && (if b.seen[id] + 1 >= c.maxAttempts then t.deadLetteredAt == Some(now) && t.nextAttemptAt.None?
                      else t.deadLetteredAt == r.deadLetteredAt &&
                           t.nextAttemptAt == Some(now + RetryDelay(c, b.seen[id]))))
  {
  }

  // ---- several publishers ----

  /** `committed` maps every row ever added to its event id, `broker` holds the event ids it has acknowledged,
      `failures` and `redrives` count what happened to each row, and `holder` remembers which batch claimed a row
      last. */
  datatype System = System(
    rows: Table,
    batches: seq<Batch>,
    clock: real,
    committed: map<RowId, EventId>,
    broker: set<EventId>,
    failures: map<RowId, nat>,
    redrives: map<RowId, nat>,
    holder: map<RowId, nat>)

  datatype Action =
    | Add(id: RowId, eventId: EventId)
    | Claim(ids: seq<RowId>)
    | Acknowledge(batch: nat, id: RowId)
    | SettleBatch(batch: nat)
    | Crash(batch: nat)
    | RedriveRows(which: set<RowId>)
    | PurgeBefore(cutoff: real)
    | Tick(to: real)

  const EMPTY := System(map[], [], 0.0, map[], {}, map[], map[], map[])

  /** A publisher settles while it still holds the lease. */
  predicate Timely(s: System, a: Action) {
    a.SettleBatch? && a.batch < |s.batches| ==> s.clock < s.batches[a.batch].leaseUntil
  }

  predicate Enabled(s: System, a: Action) {
    match a
    case Add(id, _) => id !in s.committed
    case Claim(ids) =>
      && (forall id :: id in ids ==> id in s.rows && Claimable(s.rows[id], s.clock))
      && (forall m, n :: 0 <= m < n < |ids| ==> ids[m] != ids[n])
    case Acknowledge(b, id) => b < |s.batches| && s.batches[b].open && id in s.batches[b].ids && id in s.committed
    case SettleBatch(b) => b < |s.batches| && s.batches[b].open
    case Crash(b) => b < |s.batches| && s.batches[b].open
    case RedriveRows(_) => true
    case PurgeBefore(_) => true
    case Tick(to) => s.clock <= to
  }

  function Close(s: System, b: nat): (r: System)
    requires b < |s.batches|
  {
    s.(batches := s.batches[b := s.batches[b].(open := false)])
  }

  function Counted(counts: map<RowId, nat>, which: set<RowId>): (r: map<RowId, nat>) {
    map id | id in counts :: if id in which then counts[id] + 1 else counts[id]
  }

  /** The rows a settlement records a failure on. */
  function FailedRows(s: System, b: nat): (r: set<RowId>)
    requires b < |s.batches|
  {
    set id | id in s.batches[b].seen && id in s.batches[b].ids && id !in s.batches[b].acked && id in s.rows
  }

  function RedrivenRows(s: System, ids: set<RowId>): (r: set<RowId>) {
    set id | id in ids && id in s.rows && s.rows[id].deadLetteredAt.Some? && s.rows[id].publishedAt.None?
  }

  function DoAdd(s: System, id: RowId, eventId: EventId): (r: System) {
    s.(rows := s.rows[id := Row(eventId, s.clock, None, None, 0, None)],
       committed := s.committed[id := eventId],
       failures := s.failures[id := 0],
       redrives := s.redrives[id := 0])
  }

  function DoClaim(c: Config, s: System, ids: seq<RowId>): (r: System)
    requires Enabled(s, Claim(ids))
  {
    var until := s.clock + c.leaseSeconds;
    var seen := map id | id in s.rows && id in ids :: s.rows[id].attemptCount;
    s.(rows := Lease(s.rows, ids, until),
       batches := s.batches + [Batch(ids, seen, until, {}, true)],
       holder := map id | id in s.holder.Keys + s.rows.Keys && (id in ids || id in s.holder) ::
         if id in ids then |s.batches| else s.holder[id])
  }

  function DoAcknowledge(s: System, b: nat, id: RowId): (r: System)
    requires Enabled(s, Acknowledge(b, id))
  {
    var batch := s.batches[b];
    s.(batches := s.batches[b := batch.(acked := batch.acked + {id})], broker := s.broker + {s.committed[id]})
  }

  function DoSettle(c: Config, s: System, b: nat): (r: System)
    requires c.Valid() && Enabled(s, SettleBatch(b))
  {
    Close(s, b).(rows := Settle(c, s.rows, s.batches[b], s.clock),
                 failures := Counted(s.failures, FailedRows(s, b)))
  }

  function Apply(c: Config, s: System, a: Action): (r: System)
    requires c.Valid()
  {
    if !Enabled(s, a) then s else
      match a
      case Add(id, eventId) => DoAdd(s, id, eventId)
      case Claim(ids) => DoClaim(c, s, ids)
      case Acknowledge(b, id) => DoAcknowledge(s, b, id)
      case SettleBatch(b) => DoSettle(c, s, b)
      case Crash(b) => Close(s, b)
      case RedriveRows(ids) =>
        s.(rows := Redrive(s.rows, ids, s.clock), redrives := Counted(s.redrives, RedrivenRows(s, ids)))
      case PurgeBefore(cutoff) => s.(rows := Purge(s.rows, cutoff))
      case Tick(to) => s.(clock := to)
  }

  /** A row that is added can be claimed at once, and disturbs no other. */
  lemma AddOutcome(c: Config, s: System, id: RowId, eventId: EventId, now: real)
    requires c.Valid() && Enabled(s, Add(id, eventId))
    ensures var t := Apply(c, s, Add(id, eventId));
            && t.rows.Keys == s.rows.Keys + {id} && t.rows[id].eventId == eventId && t.rows[id].createdAt == s.clock
            && t.rows[id].attemptCount == 0 && Claimable(t.rows[id], now) && t.committed == s.committed[id := eventId]
            && forall other :: other in s.rows && other != id ==> t.rows[other] == s.rows[other]
  {
  }

  /** A claimed row can be claimed again exactly from the end of the lease on, and no other row changes. */
  lemma ClaimOutcome(c: Config, s: System, ids: seq<RowId>, id: RowId, now: real)
    requires c.Valid() && Enabled(s, Claim(ids)) && id in s.rows
    ensures var t := Apply(c, s, Claim(ids));
            && t.rows.Keys == s.rows.Keys && |t.batches| == |s.batches| + 1
            && (id in ids ==> (Claimable(t.rows[id], now) <==> s.clock + c.leaseSeconds <= now))
            && (id in ids ==> t.rows[id] == s.rows[id].(nextAttemptAt := t.rows[id].nextAttemptAt))
            && (id !in ids ==> t.rows[id] == s.rows[id])
            && var b := t.batches[|s.batches|];
               && b.ids == ids && b.open && b.acked == {} && b.leaseUntil == s.clock + c.leaseSeconds
               && (id in ids ==> id in b.seen && b.seen[id] == s.rows[id].attemptCount)
  {
  }

  function Run(c: Config, s: System, actions: seq<Action>): (r: System)
    requires c.Valid()
    decreases |actions|
  {
    if actions == [] then s else Run(c, Apply(c, s, actions[0]), actions[1..])
  }

  /** Every settlement of the run happens before its lease ends. */
  predicate TimelyRun(c: Config, s: System, actions: seq<Action>)
    requires c.Valid()
    decreases |actions|
  {
    actions != [] ==> Timely(s, actions[0]) && TimelyRun(c, Apply(c, s, actions[0]), actions[1..])
  }
}

/** No committed event is ever lost, whether or not publishers respect their leases. */
module OutboxNoLoss {
  import opened Outbox

  /** A committed event is still a row under its own event id, or the broker has acknowledged it; a published row has
      been acknowledged. */
  predicate Safe(s: System, id: RowId)
    requires id in s.committed
  {
    && (id in s.rows || s.committed[id] in s.broker)
    && (id in s.rows ==> s.rows[id].eventId == s.committed[id])
    && (id in s.rows && s.rows[id].publishedAt.Some? ==> s.committed[id] in s.broker)
  }

  predicate AcksReal(s: System, b: nat)
    requires b < |s.batches|
  {
    forall id :: id in s.batches[b].acked ==> id in s.committed && s.committed[id] in s.broker
  }

  ghost predicate Kept(s: System) {
    && s.rows.Keys <= s.committed.Keys
    && (forall id {:trigger s.committed[id]} :: id in s.committed ==> Safe(s, id))
    && (forall b {:trigger s.batches[b]} :: 0 <= b < |s.batches| ==> AcksReal(s, b))
  }

  lemma SettleKeeps(c: Config, s: System, b: nat)
    requires c.Valid() && Kept(s) && Enabled(s, SettleBatch(b))
    ensures Kept(DoSettle(c, s, b))
  {
    var t := DoSettle(c, s, b);
    assert AcksReal(s, b);
    forall id | id in t.committed ensures Safe(t, id) {
      assert Safe(s, id);
    }
    forall k | 0 <= k < |t.batches| ensures AcksReal(t, k) {
      assert AcksReal(s, k);
    }
  }

  lemma AcknowledgeKeeps(s: System, b: nat, id: RowId)
    requires Kept(s) && Enabled(s, Acknowledge(b, id))
    ensures Kept(DoAcknowledge(s, b, id))
  {
    var t := DoAcknowledge(s, b, id);
    forall i | i in t.committed ensures Safe(t, i) {
      assert Safe(s, i);
    }
    forall k | 0 <= k < |t.batches| ensures AcksReal(t, k) {
      assert AcksReal(s, k);
    }
  }

  lemma ApplyKeeps(c: Config, s: System, a: Action)
    requires c.Valid() && Kept(s)
    ensures Kept(Apply(c, s, a))
  {
    if Enabled(s, a) {
      var t := Apply(c, s, a);
      match a
      case SettleBatch(b) => SettleKeeps(c, s, b);
      case Acknowledge(b, id) => AcknowledgeKeeps(s, b, id);
      case _ =>
        forall id | id in t.committed ensures Safe(t, id) {
          if id in s.committed {
            assert Safe(s, id);
          }
        }
        forall k | 0 <= k < |t.batches| ensures AcksReal(t, k) {
          if k < |s.batches| {
            assert AcksReal(s, k);
          }
        }
    }
  }

  lemma {:induction false} RunKeeps(c: Config, s: System, actions: seq<Action>)
    requires c.Valid() && Kept(s)
    ensures Kept(Run(c, s, actions))
    decreases |actions|
  {
    if actions != [] {
      ApplyKeeps(c, s, actions[0]);
      RunKeeps(c, Apply(c, s, actions[0]), actions[1..]);
    }
  }

  /** In every run, with crashes and late settlements anywhere, each committed event is still a row under its original
      event id or was acknowledged by the broker under it. */
  lemma NoEventIsLost(c: Config, actions: seq<Action>, id: RowId)
    requires c.Valid() && id in Run(c, EMPTY, actions).committed
    ensures var s := Run(c, EMPTY, actions);
            && (id in s.rows ==> s.rows[id].eventId == s.committed[id])
            && ((id in s.rows && s.rows[id].publishedAt.None?) || s.committed[id] in s.broker)
  {
    RunKeeps(c, EMPTY, actions);
    assert Safe(Run(c, EMPTY, actions), id);
  }

  /** Purging removes only events the broker has acknowledged. */
  lemma PurgeRemovesOnlyAcknowledged(c: Config, actions: seq<Action>, cutoff: real, id: RowId)
    requires c.Valid() && id in Run(c, EMPTY, actions).rows && id !in Purge(Run(c, EMPTY, actions).rows, cutoff)
    ensures Run(c, EMPTY, actions).rows[id].eventId in Run(c, EMPTY, actions).broker
  {
    RunKeeps(c, EMPTY, actions);
    assert Safe(Run(c, EMPTY, actions), id);
  }
}
