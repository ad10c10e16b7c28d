/** Idempotent creation: many concurrent creates over one database, whose unique constraints arbitrate. Each action
    is one database step of one call; a call may crash between any two. */
module Creation {
  import opened Common

  type Key = string
  type RequestId = nat

  datatype Record = Record(fingerprint: string, requestId: RequestId)

  datatype Answer =
    | Created(id: RequestId)
    | Replayed(id: RequestId)
    | KeyConflict      // the key was used with a different body
    | StillCreating    // the race was lost but the winner's record is not there

  datatype Phase =
    | Arrived
    | Missed                            // no record seen, about to insert
    | RequestInserted(id: RequestId)    // flushed, not committed
    | RecordInserted(id: RequestId)     // both flushed, not committed
    | LostRace                          // rolled back after a conflict, about to replay
    | Committed(id: RequestId)          // durable, not dispatched yet
    | Dispatched(id: RequestId)
    | Answered(answer: Answer)
    | Gone                              // crashed, or the dispatch raised

  datatype Call = Call(key: Option<Key>, fingerprint: string, phase: Phase)

  /** The committed tables, the keys held by uncommitted inserts, and what has happened so far. `creator` remembers
      which call drew an id. */
  datatype World = World(
    calls: seq<Call>,
    requests: map<RequestId, Option<Key>>,
    records: map<Key, Record>,
    locks: map<Key, nat>,
    dispatches: seq<RequestId>,
    nextId: RequestId,
    creator: map<RequestId, nat>)

  datatype Action =
    | Arrive(key: Option<Key>, fingerprint: string)
    | LookUp(call: nat)
    | InsertRequest(call: nat)
    | InsertRecord(call: nat)
    | CommitCreation(call: nat)
    | ReplayAfterRace(call: nat)
    | IssueDispatch(call: nat)
    | Reply(call: nat)
    | Crash(call: nat)

  function Put(w: World, i: nat, phase: Phase): (r: World)
    requires i < |w.calls|
  {
    w.(calls := w.calls[i := w.calls[i].(phase := phase)])
  }

  /** Answers from the stored record, if there is one. */
  function ReplayIfSeen(w: World, key: Key, fingerprint: string): (r: Option<Answer>) {
    if key !in w.records then None
    else if w.records[key].fingerprint != fingerprint then Some(KeyConflict)
    else Some(Replayed(w.records[key].requestId))
  }

  predicate KeyTaken(w: World, key: Key) {
    Some(key) in w.requests.Values
  }

  function Unlock(w: World, key: Option<Key>): (r: World) {
    if key.Some? then w.(locks := w.locks - {key.value}) else w
  }

  function DoLookUp(w: World, i: nat): (r: World)
    requires i < |w.calls| && w.calls[i].phase.Arrived?
  {
    var c := w.calls[i];
    var seen := if c.key.Some? then ReplayIfSeen(w, c.key.value, c.fingerprint) else None;
    Put(w, i, if seen.Some? then Answered(seen.value) else Missed)
  }

  /** Inserting a key another transaction has inserted but not committed waits for that transaction. */
  function DoInsertRequest(w: World, i: nat): (r: World)
    requires i < |w.calls| && w.calls[i].phase.Missed?
  {
    var c := w.calls[i];
    var drawn := w.(nextId := w.nextId + 1, creator := w.creator[w.nextId := i]);
    if c.key.None? then Put(drawn, i, RequestInserted(w.nextId))
    else if c.key.value in w.locks then w
    else if KeyTaken(w, c.key.value) then Put(drawn, i, LostRace)
    else Put(drawn.(locks := w.locks[c.key.value := i]), i, RequestInserted(w.nextId))
  }

  function DoInsertRecord(w: World, i: nat): (r: World)
    requires i < |w.calls| && w.calls[i].phase.RequestInserted?
  {
    var c := w.calls[i];
    if c.key.Some? && c.key.value in w.records then Put(Unlock(w, c.key), i, LostRace)
    else Put(w, i, RecordInserted(c.phase.id))
  }

  function DoCommit(w: World, i: nat): (r: World)
    requires i < |w.calls| && w.calls[i].phase.RecordInserted?
  {
    var c := w.calls[i];
    var t := Unlock(w, c.key).(
      requests := w.requests[c.phase.id := c.key],
      records := if c.key.Some? then w.records[c.key.value := Record(c.fingerprint, c.phase.id)] else w.records);
    Put(t, i, Committed(c.phase.id))
  }

  function DoReplay(w: World, i: nat): (r: World)
    requires i < |w.calls| && w.calls[i].phase.LostRace?
  {
    var c := w.calls[i];
    var seen := if c.key.Some? then ReplayIfSeen(w, c.key.value, c.fingerprint) else None;
    Put(w, i, Answered(if seen.Some? then seen.value else StillCreating))
  }

  function DoDispatch(w: World, i: nat): (r: World)
    requires i < |w.calls| && w.calls[i].phase.Committed?
  {
    Put(w.(dispatches := w.dispatches + [w.calls[i].phase.id]), i, Dispatched(w.calls[i].phase.id))
  }

  predicate Holds(c: Call) {
    c.phase.RequestInserted? || c.phase.RecordInserted?
  }

  /** A crash rolls back what the call had not committed. */
  function DoCrash(w: World, i: nat): (r: World)
    requires i < |w.calls| && !w.calls[i].phase.Answered?
  {
    Put(if Holds(w.calls[i]) then Unlock(w, w.calls[i].key) else w, i, Gone)
  }

  function Apply(w: World, a: Action): (r: World) {
    match a
    case Arrive(key, fingerprint) => w.(calls := w.calls + [Call(key, fingerprint, Arrived)])
    case LookUp(i) => if i < |w.calls| && w.calls[i].phase.Arrived? then DoLookUp(w, i) else w
    case InsertRequest(i) => if i < |w.calls| && w.calls[i].phase.Missed? then DoInsertRequest(w, i) else w
    case InsertRecord(i) => if i < |w.calls| && w.calls[i].phase.RequestInserted? then DoInsertRecord(w, i) else w
    case CommitCreation(i) => if i < |w.calls| && w.calls[i].phase.RecordInserted? then DoCommit(w, i) else w
    case ReplayAfterRace(i) => if i < |w.calls| && w.calls[i].phase.LostRace? then DoReplay(w, i) else w
    case IssueDispatch(i) => if i < |w.calls| && w.calls[i].phase.Committed? then DoDispatch(w, i) else w
    case Reply(i) =>
      if i < |w.calls| && w.calls[i].phase.Dispatched? then Put(w, i, Answered(Created(w.calls[i].phase.id))) else w
    case Crash(i) => if i < |w.calls| && !w.calls[i].phase.Answered? then DoCrash(w, i) else w
  }

  function Run(w: World, actions: seq<Action>): (r: World)
    decreases |actions|
  {
    if actions == [] then w else Run(Apply(w, actions[0]), actions[1..])
  }

  const EMPTY := World([], map[], map[], map[], [], 0, map[])

  // ---- the invariant ----

  /** The committed request `id` is the one the call's key is bound to, under the call's own fingerprint. */
  predicate Bound(w: World, c: Call, id: RequestId) {
    && id in w.requests && w.requests[id] == c.key
    && (c.key.Some? ==> c.key.value in w.records && w.records[c.key.value] == Record(c.fingerprint, id))
  }

  predicate Drawn(w: World, i: nat, id: RequestId) {
    id in w.creator && w.creator[id] == i
  }

  predicate Holding(w: World, i: nat, c: Call, id: RequestId) {
    && Drawn(w, i, id) && id !in w.requests && id !in w.dispatches
    && (c.key.Some? ==> c.key.value in w.locks && w.locks[c.key.value] == i && c.key.value !in w.records)
  }

  predicate AnswerOk(w: World, c: Call, answer: Answer) {
    match answer
    case Created(id) => Bound(w, c, id)
    case Replayed(id) => c.key.Some? && Bound(w, c, id)
    case KeyConflict => c.key.Some? && c.key.value in w.records && w.records[c.key.value].fingerprint != c.fingerprint
    case StillCreating => false
  }

  predicate CallOk(w: World, i: nat)
    requires i < |w.calls|
  {
    var c := w.calls[i];
    match c.phase
    case Arrived | Missed | Gone => true
    case RequestInserted(id) => Holding(w, i, c, id)
    case RecordInserted(id) => Holding(w, i, c, id)
    case LostRace => c.key.Some? && c.key.value in w.records
    case Committed(id) => Drawn(w, i, id) && Bound(w, c, id) && id !in w.dispatches
    case Dispatched(id) => Drawn(w, i, id) && Bound(w, c, id)
    case Answered(answer) => AnswerOk(w, c, answer)
  }

  /** Record and request are committed together: each names the other. */
  predicate Paired(w: World) {
    && (forall k {:trigger w.records[k]} :: k in w.records ==>
          w.records[k].requestId in w.requests && w.requests[w.records[k].requestId] == Some(k))
    && (forall id {:trigger w.requests[id]} :: id in w.requests && w.requests[id].Some? ==>
          w.requests[id].value in w.records && w.records[w.requests[id].value].requestId == id)
  }

  predicate IdsUsed(w: World) {
    && (forall id :: id in w.creator ==> id < w.nextId)
    && (forall id :: id in w.requests ==> id in w.creator)
    && (forall id :: id in w.dispatches ==> id in w.requests)
    && (forall k :: k in w.locks ==> k !in w.records)
    && (forall m, n :: 0 <= m < n < |w.dispatches| ==> w.dispatches[m] != w.dispatches[n])
  }

  ghost predicate Inv(w: World) {
    && Paired(w)
    && IdsUsed(w)
    && (forall i {:trigger w.calls[i]} :: 0 <= i < |w.calls| ==> CallOk(w, i))
  }

  // ---- one step ----

  /** What a step of call `i` may do to everything other calls rely on. */
  predicate Around(w: World, t: World, i: nat) {
    && |t.calls| == |w.calls|
    && (forall j {:trigger t.calls[j]} :: 0 <= j < |w.calls| && j != i ==> t.calls[j] == w.calls[j])
    && (forall k {:trigger k in t.records} :: k in w.records ==> k in t.records && t.records[k] == w.records[k])
    && (forall k {:trigger k in t.records} :: k in t.records && k !in w.records ==> k in w.locks && w.locks[k] == i)
    && (forall id {:trigger id in t.requests} :: id in w.requests ==>
        id in t.requests && t.requests[id] == w.requests[id])
    && (forall id {:trigger id in t.requests} :: id in t.requests && id !in w.requests ==> Drawn(w, i, id))
    && (forall id {:trigger id in t.creator} :: id in w.creator ==> id in t.creator && t.creator[id] == w.creator[id])
    && (forall k {:trigger k in t.locks} :: k in w.locks && w.locks[k] != i ==>
        k in t.locks && t.locks[k] == w.locks[k])
    && (forall id {:trigger id in t.dispatches} :: id in t.dispatches && id !in w.dispatches ==> Drawn(w, i, id))
  }

  lemma OthersKept(w: World, t: World, i: nat, j: nat)
    requires Around(w, t, i) && j < |w.calls| && j != i && CallOk(w, j)
    ensures CallOk(t, j)
  {
    assert t.calls[j] == w.calls[j];
  }

  /** A step of one call keeps the invariant once its own call and the tables are in order. */
  lemma StepKeepsInv(w: World, t: World, i: nat)
    requires Inv(w) && i < |w.calls| && Around(w, t, i) && CallOk(t, i) && Paired(t) && IdsUsed(t)
    ensures Inv(t)
  {
    forall j | 0 <= j < |t.calls| ensures CallOk(t, j) {
      if j != i {
        OthersKept(w, t, i, j);
      }
    }
  }

  lemma KeyTakenMeansRecorded(w: World, key: Key)
    requires Paired(w)
    ensures KeyTaken(w, key) <==> key in w.records
  {
    if KeyTaken(w, key) {
      var id :| id in w.requests && w.requests[id] == Some(key);
    }
    if key in w.records {
      assert w.requests[w.records[key].requestId] == Some(key);
    }
  }

  lemma LookUpKeeps(w: World, i: nat)
    requires Inv(w) && i < |w.calls| && w.calls[i].phase.Arrived?
    ensures Inv(DoLookUp(w, i))
  {
    StepKeepsInv(w, DoLookUp(w, i), i);
  }

  lemma LockedInsertKeeps(w: World, i: nat)
    requires Inv(w) && i < |w.calls| && w.calls[i].phase.Missed? && w.calls[i].key.Some?
    requires w.calls[i].key.value !in w.locks && !KeyTaken(w, w.calls[i].key.value)
    ensures Inv(DoInsertRequest(w, i))
  {
    KeyTakenMeansRecorded(w, w.calls[i].key.value);
    assert w.nextId !in w.requests && w.nextId !in w.dispatches;
    StepKeepsInv(w, DoInsertRequest(w, i), i);
  }

  lemma InsertRequestKeeps(w: World, i: nat)
    requires Inv(w) && i < |w.calls| && w.calls[i].phase.Missed?
    ensures Inv(DoInsertRequest(w, i))
  {
    var c, t := w.calls[i], DoInsertRequest(w, i);
    if c.key.None? {
      assert w.nextId !in w.requests && w.nextId !in w.dispatches;
      StepKeepsInv(w, t, i);
    } else if c.key.value !in w.locks {
      KeyTakenMeansRecorded(w, c.key.value);
      if KeyTaken(w, c.key.value) {
        StepKeepsInv(w, t, i);
      } else {
        LockedInsertKeeps(w, i);
      }
    }
  }

  lemma InsertRecordKeeps(w: World, i: nat)
    requires Inv(w) && i < |w.calls| && w.calls[i].phase.RequestInserted?
    ensures Inv(DoInsertRecord(w, i))
  {
    assert CallOk(w, i);
    StepKeepsInv(w, DoInsertRecord(w, i), i);
  }

  lemma CommitKeeps(w: World, i: nat)
    requires Inv(w) && i < |w.calls| && w.calls[i].phase.RecordInserted?
    ensures Inv(DoCommit(w, i))
  {
    assert CallOk(w, i);
    StepKeepsInv(w, DoCommit(w, i), i);
  }

  lemma ReplayKeeps(w: World, i: nat)
    requires Inv(w) && i < |w.calls| && w.calls[i].phase.LostRace?
    ensures Inv(DoReplay(w, i))
  {
    assert CallOk(w, i);
    StepKeepsInv(w, DoReplay(w, i), i);
  }

  lemma DispatchKeeps(w: World, i: nat)
    requires Inv(w) && i < |w.calls| && w.calls[i].phase.Committed?
    ensures Inv(DoDispatch(w, i))
  {
    assert CallOk(w, i);
    StepKeepsInv(w, DoDispatch(w, i), i);
  }

  lemma CrashKeeps(w: World, i: nat)
    requires Inv(w) && i < |w.calls| && !w.calls[i].phase.Answered?
    ensures Inv(DoCrash(w, i))
  {
    assert CallOk(w, i);
    StepKeepsInv(w, DoCrash(w, i), i);
  }

  lemma ApplyKeepsInv(w: World, a: Action)
    requires Inv(w)
    ensures Inv(Apply(w, a))
  {
    if Apply(w, a) != w {
      match a
      case Arrive(_, _) =>
        var t := Apply(w, a);
        forall j | 0 <= j < |t.calls| ensures CallOk(t, j) {
          if j < |w.calls| {
            assert t.calls[j] == w.calls[j] && CallOk(w, j);
          }
        }
      case LookUp(i) => LookUpKeeps(w, i);
      case InsertRequest(i) => InsertRequestKeeps(w, i);
      case InsertRecord(i) => InsertRecordKeeps(w, i);
      case CommitCreation(i) => CommitKeeps(w, i);
      case ReplayAfterRace(i) => ReplayKeeps(w, i);
      case IssueDispatch(i) => DispatchKeeps(w, i);
      case Reply(i) =>
        assert CallOk(w, i);
        StepKeepsInv(w, Apply(w, a), i);
      case Crash(i) => CrashKeeps(w, i);
    }
  }

  lemma {:induction false} RunKeepsInv(w: World, actions: seq<Action>)
    requires Inv(w)
    ensures Inv(Run(w, actions))
    decreases |actions|
  {
    if actions != [] {
      ApplyKeepsInv(w, actions[0]);
      RunKeepsInv(Apply(w, actions[0]), actions[1..]);
    }
  }

  // ---- main results ----

  /** The request a successful answer names. */
  function Named(c: Call): (r: Option<RequestId>) {
    match c.phase
    case Answered(Created(id)) => Some(id)
    case Answered(Replayed(id)) => Some(id)
    case _ => None
  }

  /** After any run, records and keyed requests are in one-to-one correspondence: they were committed together, and
      a key is bound to at most one request. */
  lemma CommittedTogether(actions: seq<Action>)
    ensures Paired(Run(EMPTY, actions))
    ensures var w := Run(EMPTY, actions);
            forall a, b ::
              (a in w.requests && b in w.requests && w.requests[a].Some? && w.requests[a] == w.requests[b]) ==> a == b
  {
    RunKeepsInv(EMPTY, actions);
  }

  /** A key once bound stays bound to the same request and body in every continuation. */
  lemma {:induction false} BoundForever(w: World, actions: seq<Action>, key: Key)
    requires Inv(w) && key in w.records
    ensures key in Run(w, actions).records && Run(w, actions).records[key] == w.records[key]
    decreases |actions|
  {
    if actions != [] {
      ApplyKeepsInv(w, actions[0]);
      assert Apply(w, actions[0]).records[key] == w.records[key] by {
        if actions[0].CommitCreation? && actions[0].call < |w.calls| {
          assert CallOk(w, actions[0].call);
        }
      }
      BoundForever(Apply(w, actions[0]), actions[1..], key);
    }
  }

  lemma {:induction false} RunsCompose(w: World, first: seq<Action>, rest: seq<Action>)
    ensures Run(w, first + rest) == Run(Run(w, first), rest)
    decreases |first|
  {
    if first == [] {
      assert first + rest == rest;
    } else {
      assert (first + rest)[1..] == first[1..] + rest;
      RunsCompose(Apply(w, first[0]), first[1..], rest);
    }
  }

  lemma KeysStayBound(first: seq<Action>, rest: seq<Action>, key: Key)
    requires key in Run(EMPTY, first).records
    ensures key in Run(EMPTY, first + rest).records
    ensures Run(EMPTY, first + rest).records[key] == Run(EMPTY, first).records[key]
  {
    RunKeepsInv(EMPTY, first);
    BoundForever(Run(EMPTY, first), rest, key);
    RunsCompose(EMPTY, first, rest);
  }

  /** Every successful answer for a key names the one request bound to it, and was given to a call with its body. */
  lemma AnswersNameTheBoundRequest(actions: seq<Action>, i: nat)
    requires i < |Run(EMPTY, actions).calls|
    requires Run(EMPTY, actions).calls[i].key.Some? && Named(Run(EMPTY, actions).calls[i]).Some?
    ensures var w := Run(EMPTY, actions);
            var c := w.calls[i];
            c.key.value in w.records && w.records[c.key.value] == Record(c.fingerprint, Named(c).value)
  {
    RunKeepsInv(EMPTY, actions);
    assert CallOk(Run(EMPTY, actions), i);
  }

  /** So any two successful answers for one key name the same request, however the calls interleaved. */
  lemma AnswersAgree(actions: seq<Action>, i: nat, j: nat)
    requires i < |Run(EMPTY, actions).calls| && j < |Run(EMPTY, actions).calls|
    requires Run(EMPTY, actions).calls[i].key.Some? &&
             Run(EMPTY, actions).calls[i].key == Run(EMPTY, actions).calls[j].key
    requires Named(Run(EMPTY, actions).calls[i]).Some? && Named(Run(EMPTY, actions).calls[j]).Some?
    ensures Named(Run(EMPTY, actions).calls[i]) == Named(Run(EMPTY, actions).calls[j])
    ensures Run(EMPTY, actions).calls[i].fingerprint == Run(EMPTY, actions).calls[j].fingerprint
  {
    AnswersNameTheBoundRequest(actions, i);
    AnswersNameTheBoundRequest(actions, j);
  }

  /** An answered call is refused exactly when the key is bound to a different body, and the loser of an insert race
      always finds the winner's record. */
  lemma RefusedExactlyOnOtherBody(actions: seq<Action>, i: nat)
    requires i < |Run(EMPTY, actions).calls| && Run(EMPTY, actions).calls[i].phase.Answered?
    ensures var w := Run(EMPTY, actions);
            var c := w.calls[i];
            && !c.phase.answer.StillCreating?
            && (c.key.Some? ==> c.key.value in w.records)
            && (c.phase.answer.KeyConflict? <==> c.key.Some? && w.records[c.key.value].fingerprint != c.fingerprint)
  {
    RunKeepsInv(EMPTY, actions);
    assert CallOk(Run(EMPTY, actions), i);
  }

  /** The initial dispatch is issued at most once for a request, hence at most once for a key, and only for a request
      that is already durable. */
  lemma DispatchedAtMostOnce(actions: seq<Action>, m: nat, n: nat)
    requires m < |Run(EMPTY, actions).dispatches| && n < |Run(EMPTY, actions).dispatches|
    ensures var w := Run(EMPTY, actions);
            var a, b := w.dispatches[m], w.dispatches[n];
            && a in w.requests && b in w.requests
            && (a == b || (w.requests[a].Some? && w.requests[a] == w.requests[b]) ==> m == n)
  {
    RunKeepsInv(EMPTY, actions);
    var w := Run(EMPTY, actions);
    assert w.dispatches[m] in w.dispatches && w.dispatches[n] in w.dispatches;
    CommittedTogether(actions);
  }
}
