/** Exactly one dispatch: what a create commits is dispatched once by the call that committed it, unless that call
    crashes first; and no call waits on a key for ever. */
module CreationDispatch {
  import opened Common
  import opened Creation

  predicate Finished(c: Call) {
    c.phase.Answered? || c.phase.Gone?
  }

  /** The call has dispatched the request `id`, or crashed. */
  predicate PastDispatch(c: Call, id: RequestId) {
    c.phase == Dispatched(id) || c.phase == Answered(Created(id)) || c.phase.Gone?
  }

  /** The call has committed the request `id`, or crashed. */
  predicate PastCommit(c: Call, id: RequestId) {
    PastDispatch(c, id) || c.phase == Committed(id)
  }

  /** Ids are drawn by calls. */
  predicate DrawnByCalls(w: World) {
    forall id {:trigger w.creator[id]} :: id in w.creator ==> w.creator[id] < |w.calls|
  }

  predicate HasDispatched(c: Call, id: RequestId) {
    c.phase == Dispatched(id) || c.phase == Answered(Created(id))
  }

  /** A call that says it has dispatched a request has. */
  ghost predicate DispatchesMade(w: World) {
    forall i, id {:trigger HasDispatched(w.calls[i], id)} ::
      0 <= i < |w.calls| && HasDispatched(w.calls[i], id) ==> id in w.dispatches && Drawn(w, i, id)
  }

  predicate RequestTraced(w: World, id: RequestId) {
    id in w.creator && w.creator[id] < |w.calls| && PastCommit(w.calls[w.creator[id]], id)
  }

  predicate DispatchTraced(w: World, id: RequestId) {
    id in w.creator && w.creator[id] < |w.calls| && PastDispatch(w.calls[w.creator[id]], id)
  }

  /** Every committed request and every dispatch goes back to the call that drew its id. */
  predicate AllTraced(w: World) {
    && (forall id :: id in w.requests ==> RequestTraced(w, id))
    && (forall id :: id in w.dispatches ==> DispatchTraced(w, id))
  }

  /** A key is locked exactly while a live call holds an uncommitted insert of it. */
  predicate LockHeld(w: World, k: Key)
    requires k in w.locks
  {
    w.locks[k] < |w.calls| && Holds(w.calls[w.locks[k]]) && w.calls[w.locks[k]].key == Some(k)
  }

  predicate LocksHeld(w: World) {
    forall k :: k in w.locks ==> LockHeld(w, k)
  }

  ghost predicate Accounted(w: World) {
    Inv(w) && DrawnByCalls(w) && DispatchesMade(w) && AllTraced(w) && LocksHeld(w)
  }

  // ---- one step ----

  /** How the phase of a call may change. */
  predicate Edge(p: Phase, q: Phase) {
    || q == p
    || (q.Gone? && !p.Answered?)
    || match p
       case Arrived => q.Missed? || (q.Answered? && !q.answer.Created?)
       case Missed => q.RequestInserted? || q.LostRace?
       case RequestInserted(id) => q == RecordInserted(id) || q.LostRace?
       case RecordInserted(id) => q == Committed(id)
       case LostRace => q.Answered? && !q.answer.Created?
       case Committed(id) => q == Dispatched(id)
       case Dispatched(id) => q == Answered(Created(id))
       case Answered(_) => false
       case Gone => false
  }

  lemma ReadsFollowEdges(w: World, i: nat)
    requires i < |w.calls|
    ensures w.calls[i].phase.Arrived? ==> Edge(w.calls[i].phase, DoLookUp(w, i).calls[i].phase)
    ensures w.calls[i].phase.LostRace? ==> Edge(w.calls[i].phase, DoReplay(w, i).calls[i].phase)
  {
  }

  lemma InsertsFollowEdges(w: World, i: nat)
    requires i < |w.calls|
    ensures w.calls[i].phase.Missed? ==> Edge(w.calls[i].phase, DoInsertRequest(w, i).calls[i].phase)
    ensures w.calls[i].phase.RequestInserted? ==> Edge(w.calls[i].phase, DoInsertRecord(w, i).calls[i].phase)
  {
  }

  lemma OthersFollowEdges(w: World, a: Action)
    requires !a.Arrive? && !a.LookUp? && !a.ReplayAfterRace? && !a.InsertRequest? && !a.InsertRecord?
    requires a.call < |w.calls|
    ensures a.call < |Apply(w, a).calls| && Edge(w.calls[a.call].phase, Apply(w, a).calls[a.call].phase)
  {
  }

  lemma OwnEdge(w: World, a: Action)
    requires !a.Arrive? && a.call < |w.calls|
    ensures a.call < |Apply(w, a).calls| && Edge(w.calls[a.call].phase, Apply(w, a).calls[a.call].phase)
  {
    if a.LookUp? || a.ReplayAfterRace? {
      ReadsFollowEdges(w, a.call);
    } else if a.InsertRequest? || a.InsertRecord? {
      InsertsFollowEdges(w, a.call);
    } else {
      OthersFollowEdges(w, a);
    }
  }

  /** Only the acting call changes, along an edge, and it keeps its key. */
  lemma OneCallMoves(w: World, a: Action, j: nat)
    requires j < |w.calls|
    ensures j < |Apply(w, a).calls| && Apply(w, a).calls[j].key == w.calls[j].key
    ensures Apply(w, a).calls[j] == w.calls[j] || (!a.Arrive? && a.call == j)
    ensures Edge(w.calls[j].phase, Apply(w, a).calls[j].phase)
  {
    OnlyOneMoves(w, a, j);
    if !a.Arrive? && a.call == j { OwnEdge(w, a); }
  }

  lemma OnlyOneMoves(w: World, a: Action, j: nat)
    requires j < |w.calls|
    ensures j < |Apply(w, a).calls| && Apply(w, a).calls[j].key == w.calls[j].key
    ensures a.Arrive? || a.call != j ==> Apply(w, a).calls[j] == w.calls[j]
  {
  }

  lemma DrawnKept(w: World, a: Action)
    requires DrawnByCalls(w)
    ensures DrawnByCalls(Apply(w, a))
  {
  }

  /** A call comes to have dispatched a request only by dispatching it, or by replying that it has. */
  lemma DispatchedBy(w: World, a: Action, i: nat, id: RequestId)
    requires i < |w.calls| && i < |Apply(w, a).calls| && HasDispatched(Apply(w, a).calls[i], id)
    ensures HasDispatched(w.calls[i], id) || (a == IssueDispatch(i) && w.calls[i].phase == Committed(id))
  {
    OneCallMoves(w, a, i);
    if !HasDispatched(w.calls[i], id) {
      DispatchedNow(w, a, id);
    }
  }

  lemma DispatchedNow(w: World, a: Action, id: RequestId)
    requires !a.Arrive? && a.call < |w.calls| && w.calls[a.call].phase == Committed(id)
    requires a.call < |Apply(w, a).calls| && Apply(w, a).calls[a.call].phase == Dispatched(id)
    ensures a.IssueDispatch?
  {
  }

  lemma DispatchesKept(w: World, a: Action)
    requires Inv(w) && DispatchesMade(w)
    ensures DispatchesMade(Apply(w, a))
  {
    var t := Apply(w, a);
    forall i, id {:trigger HasDispatched(t.calls[i], id)} | 0 <= i < |t.calls| && HasDispatched(t.calls[i], id)
      ensures id in t.dispatches && Drawn(t, i, id)
    {
      if i < |w.calls| {
        DispatchedBy(w, a, i, id);
        assert CallOk(w, i);
        HistoryGrows(w, a, id);
        DrawsStay(w, a, i, id);
      }
    }
  }

  lemma HistoryGrows(w: World, a: Action, id: RequestId)
    ensures id in w.dispatches ==> id in Apply(w, a).dispatches
    ensures a.IssueDispatch? && a.call < |w.calls| && w.calls[a.call].phase == Committed(id) ==>
            id in Apply(w, a).dispatches
  {
  }

  lemma DrawsStay(w: World, a: Action, i: nat, id: RequestId)
    requires IdsUsed(w) && Drawn(w, i, id)
    ensures Drawn(Apply(w, a), i, id)
  {
  }

  /** Requests are committed, and dispatches issued, by one action each. */
  lemma NewRequest(w: World, a: Action, id: RequestId)
    requires id in Apply(w, a).requests && id !in w.requests
    ensures a.CommitCreation? && a.call < |w.calls| && w.calls[a.call].phase == RecordInserted(id)
    ensures Apply(w, a).calls[a.call].phase == Committed(id)
  {
  }

  lemma NewDispatch(w: World, a: Action, id: RequestId)
    requires id in Apply(w, a).dispatches && id !in w.dispatches
    ensures a.IssueDispatch? && a.call < |w.calls| && w.calls[a.call].phase == Committed(id)
    ensures Apply(w, a).calls[a.call].phase == Dispatched(id)
  {
  }

  lemma PastStays(w: World, a: Action, i: nat, id: RequestId)
    requires i < |w.calls|
    ensures i < |Apply(w, a).calls|
    ensures PastCommit(w.calls[i], id) ==> PastCommit(Apply(w, a).calls[i], id)
    ensures PastDispatch(w.calls[i], id) ==> PastDispatch(Apply(w, a).calls[i], id)
  {
    OneCallMoves(w, a, i);
  }

  lemma RequestTraceKept(w: World, a: Action, id: RequestId)
    requires Inv(w) && AllTraced(w) && DrawnByCalls(w) && id in Apply(w, a).requests
    ensures RequestTraced(Apply(w, a), id)
  {
    if id in w.requests {
      assert RequestTraced(w, id);
      PastStays(w, a, w.creator[id], id);
      DrawsStay(w, a, w.creator[id], id);
      OneCallMoves(w, a, w.creator[id]);
    } else {
      NewRequest(w, a, id);
      assert CallOk(w, a.call);
      DrawsStay(w, a, a.call, id);
      OneCallMoves(w, a, a.call);
    }
  }

  lemma DispatchTraceKept(w: World, a: Action, id: RequestId)
    requires Inv(w) && AllTraced(w) && DrawnByCalls(w) && id in Apply(w, a).dispatches
    ensures DispatchTraced(Apply(w, a), id)
  {
    if id in w.dispatches {
      assert DispatchTraced(w, id);
      PastStays(w, a, w.creator[id], id);
      DrawsStay(w, a, w.creator[id], id);
      OneCallMoves(w, a, w.creator[id]);
    } else {
      NewDispatch(w, a, id);
      assert CallOk(w, a.call);
      DrawsStay(w, a, a.call, id);
      OneCallMoves(w, a, a.call);
    }
  }

  lemma TracesKept(w: World, a: Action)
    requires Inv(w) && AllTraced(w) && DrawnByCalls(w)
    ensures AllTraced(Apply(w, a))
  {
    forall id | id in Apply(w, a).requests ensures RequestTraced(Apply(w, a), id) {
      RequestTraceKept(w, a, id);
    }
    forall id | id in Apply(w, a).dispatches ensures DispatchTraced(Apply(w, a), id) {
      DispatchTraceKept(w, a, id);
    }
  }

  /** A lock that is still there after a step is the one the acting call has just taken, or belongs to a call that holds
      on to it. */
  lemma LockKept(w: World, a: Action, k: Key)
    requires Inv(w) && LocksHeld(w) && k in Apply(w, a).locks
    ensures LockHeld(Apply(w, a), k)
  {
    if k !in w.locks {
      LockTaken(w, a, k);
    } else {
      assert LockHeld(w, k);
      assert CallOk(w, w.locks[k]);
      OneCallMoves(w, a, w.locks[k]);
      LockPassesOn(w, a, k);
    }
  }

  lemma LockTaken(w: World, a: Action, k: Key)
    requires k !in w.locks && k in Apply(w, a).locks
    ensures LockHeld(Apply(w, a), k)
  {
  }

  /** The holder of a lock that is still there has not let go of it, and nobody else has taken it. */
  lemma LockPassesOn(w: World, a: Action, k: Key)
    requires k in w.locks && LockHeld(w, k) && k in Apply(w, a).locks && k !in w.records
    ensures Apply(w, a).locks[k] == w.locks[k]
    ensures w.locks[k] < |Apply(w, a).calls| && Holds(Apply(w, a).calls[w.locks[k]])
  {
    var i := w.locks[k];
    OneCallMoves(w, a, i);
    LocksAreNotTakenOver(w, a, k);
    if !a.Arrive? && a.call == i && !Holds(Apply(w, a).calls[i]) {
      HolderLetsGo(w, a, k);
    }
  }

  lemma LocksAreNotTakenOver(w: World, a: Action, k: Key)
    requires k in w.locks && k in Apply(w, a).locks
    ensures Apply(w, a).locks[k] == w.locks[k]
  {
  }

  /** A holder that stops holding unlocks its key. */
  lemma HolderLetsGo(w: World, a: Action, k: Key)
    requires k in w.locks && LockHeld(w, k) && k !in w.records && !a.Arrive? && a.call == w.locks[k]
    requires a.call < |Apply(w, a).calls| && !Holds(Apply(w, a).calls[a.call])
    ensures k !in Apply(w, a).locks
  {
  }

  lemma ApplyKeepsAccounts(w: World, a: Action)
    requires Accounted(w)
    ensures Accounted(Apply(w, a))
  {
    ApplyKeepsInv(w, a);
    DrawnKept(w, a);
    DispatchesKept(w, a);
    TracesKept(w, a);
    forall k | k in Apply(w, a).locks ensures LockHeld(Apply(w, a), k) {
      LockKept(w, a, k);
    }
  }

  lemma {:induction false} RunKeepsAccounts(w: World, actions: seq<Action>)
    requires Accounted(w)
    ensures Accounted(Run(w, actions))
    decreases |actions|
  {
    if actions != [] {
      ApplyKeepsAccounts(w, actions[0]);
      RunKeepsAccounts(Apply(w, actions[0]), actions[1..]);
    }
  }

  // ---- main results ----

  /** In every run a call that has been answered as the creator of a request has dispatched it exactly once, and nothing
      else was ever dispatched for its key. */
  lemma DispatchedExactlyOnce(actions: seq<Action>, i: nat, id: RequestId) returns (m: nat)
    requires i < |Run(EMPTY, actions).calls| && HasDispatched(Run(EMPTY, actions).calls[i], id)
    ensures var w := Run(EMPTY, actions);
            && m < |w.dispatches| && w.dispatches[m] == id
            && forall n :: 0 <= n < |w.dispatches| && w.dispatches[n] in w.requests ==>
                 (w.dispatches[n] == id || (w.calls[i].key.Some? && w.requests[w.dispatches[n]] == w.calls[i].key)
                  <==> n == m)
  {
    RunKeepsAccounts(EMPTY, actions);
    var w := Run(EMPTY, actions);
    assert id in w.dispatches && CallOk(w, i);
    m :| 0 <= m < |w.dispatches| && w.dispatches[m] == id;
    forall n | 0 <= n < |w.dispatches| && w.dispatches[n] in w.requests
      ensures w.dispatches[n] == id || (w.calls[i].key.Some? && w.requests[w.dispatches[n]] == w.calls[i].key) <==>
              n == m
    {
      DispatchedAtMostOnce(actions, m, n);
    }
  }

  /** In every run each dispatch was issued by the call that drew its id, and that call has been answered as the
      creator, is about to be, or crashed. */
  lemma DispatchesComeFromCreators(actions: seq<Action>, id: RequestId)
    requires id in Run(EMPTY, actions).dispatches
    ensures var w := Run(EMPTY, actions);
            id in w.creator && w.creator[id] < |w.calls| && PastDispatch(w.calls[w.creator[id]], id)
  {
    RunKeepsAccounts(EMPTY, actions);
    assert DispatchTraced(Run(EMPTY, actions), id);
  }

  /** In every run a committed request has been dispatched, unless the call that committed it is about to dispatch it or
      crashed. */
  lemma CommittedIsDispatched(actions: seq<Action>, id: RequestId)
    requires id in Run(EMPTY, actions).requests
    ensures var w := Run(EMPTY, actions);
            && id in w.creator && w.creator[id] < |w.calls|
            && (id in w.dispatches || w.calls[w.creator[id]].phase == Committed(id) ||
                w.calls[w.creator[id]].phase.Gone?)
  {
    RunKeepsAccounts(EMPTY, actions);
    var w := Run(EMPTY, actions);
    assert RequestTraced(w, id);
    var c := w.calls[w.creator[id]];
    assert PastDispatch(c, id) && !c.phase.Gone? ==> HasDispatched(c, id);
  }

  /** A create whose key is bound is answered by its first look, before it draws an id; any other one goes on to insert.
      */
  lemma LookUpOutcome(w: World, i: nat)
    requires i < |w.calls| && w.calls[i].phase.Arrived?
    ensures var c, t := w.calls[i], Apply(w, LookUp(i));
            && t == w.(calls := t.calls) && |t.calls| == |w.calls|
            && t.calls[i] == c.(phase :=
                 if c.key.Some? && c.key.value in w.records then
                   Answered(if w.records[c.key.value].fingerprint == c.fingerprint
                            then Replayed(w.records[c.key.value].requestId) else KeyConflict)
                 else Missed)
  {
  }

  /** In every run the lock on the key has settled the race by the time the record is inserted: that insert never
      conflicts. */
  lemma RecordInsertNeverConflicts(actions: seq<Action>, i: nat)
    requires i < |Run(EMPTY, actions).calls| && Run(EMPTY, actions).calls[i].phase.RequestInserted?
    ensures var w := Run(EMPTY, actions);
            Apply(w, InsertRecord(i)).calls[i].phase == RecordInserted(w.calls[i].phase.id)
  {
    RunKeepsInv(EMPTY, actions);
    assert CallOk(Run(EMPTY, actions), i);
  }

  // ---- no call waits for ever ----

  /** The next step of a call. */
  function NextStep(c: Call, i: nat): (a: Action) {
    match c.phase
    case Arrived => LookUp(i)
    case Missed => InsertRequest(i)
    case RequestInserted(_) => InsertRecord(i)
    case RecordInserted(_) => CommitCreation(i)
    case LostRace => ReplayAfterRace(i)
    case Committed(_) => IssueDispatch(i)
    case Dispatched(_) => Reply(i)
    case Answered(_) => Crash(i)
    case Gone => Crash(i)
  }

  /** How many steps a call has left at most. */
  function Left(c: Call): (n: nat) {
    match c.phase
    case Arrived => 7
    case Missed => 6
    case RequestInserted(_) => 5
    case RecordInserted(_) => 4
    case Committed(_) => 3
    case Dispatched(_) => 2
    case LostRace => 1
    case Answered(_) => 0
    case Gone => 0
  }

  /** An insert waits for another call. */
  predicate Blocked(w: World, i: nat) {
    i < |w.calls| && w.calls[i].phase.Missed? && w.calls[i].key.Some? && w.calls[i].key.value in w.locks
  }

  /** The next step of an unfinished call brings it nearer to its answer exactly unless it waits for a key. */
  lemma StepsLead(w: World, i: nat)
    requires i < |w.calls| && !Finished(w.calls[i])
    ensures i < |Apply(w, NextStep(w.calls[i], i)).calls|
    ensures !Blocked(w, i) <==> Left(Apply(w, NextStep(w.calls[i], i)).calls[i]) < Left(w.calls[i])
  {
    OneCallMoves(w, NextStep(w.calls[i], i), i);
    if w.calls[i].phase.Missed? {
      InsertLeads(w, i);
    } else if w.calls[i].phase.Arrived? || w.calls[i].phase.LostRace? {
      LookUpLeads(w, i);
    } else {
      WritesLead(w, i);
    }
  }

  lemma InsertLeads(w: World, i: nat)
    requires i < |w.calls| && w.calls[i].phase.Missed?
    ensures var t := Apply(w, InsertRequest(i));
            && i < |t.calls|
            && (Blocked(w, i) ==> t == w)
            && (!Blocked(w, i) ==> t.calls[i].phase.RequestInserted? || t.calls[i].phase.LostRace?)
  {
  }

  lemma LookUpLeads(w: World, i: nat)
    requires i < |w.calls| && (w.calls[i].phase.Arrived? || w.calls[i].phase.LostRace?)
    ensures var t := Apply(w, NextStep(w.calls[i], i));
            && i < |t.calls|
            && (t.calls[i].phase.Answered? || (w.calls[i].phase.Arrived? && t.calls[i].phase.Missed?))
  {
  }

  lemma WritesLead(w: World, i: nat)
    requires i < |w.calls| && (Holds(w.calls[i]) || w.calls[i].phase.Committed? || w.calls[i].phase.Dispatched?)
    ensures var t := Apply(w, NextStep(w.calls[i], i)); i < |t.calls| && Left(t.calls[i]) < Left(w.calls[i])
  {
    var a := NextStep(w.calls[i], i);
    OneCallMoves(w, a, i);
    if w.calls[i].phase.RequestInserted? { InsertMoves(w, i); } else { WriteMoves(w, i); }
  }

  lemma InsertMoves(w: World, i: nat)
    requires i < |w.calls| && w.calls[i].phase.RequestInserted?
    ensures i < |Apply(w, InsertRecord(i)).calls| && !Apply(w, InsertRecord(i)).calls[i].phase.RequestInserted?
  {
  }

  lemma WriteMoves(w: World, i: nat)
    requires i < |w.calls|
    requires w.calls[i].phase.RecordInserted? || w.calls[i].phase.Committed? || w.calls[i].phase.Dispatched?
    ensures var t := Apply(w, NextStep(w.calls[i], i)); i < |t.calls| && t.calls[i].phase != w.calls[i].phase
  {
  }

  /** No step takes a call back. */
  lemma StepsNeverLeadBack(w: World, i: nat, a: Action)
    requires i < |w.calls|
    ensures i < |Apply(w, a).calls| && Left(Apply(w, a).calls[i]) <= Left(w.calls[i])
  {
    OneCallMoves(w, a, i);
  }

  /** In every run a call that waits for a key waits for a live call that holds it and is not waiting itself. */
  lemma BlockedByLiveCall(actions: seq<Action>, i: nat)
    requires Blocked(Run(EMPTY, actions), i)
    ensures var w := Run(EMPTY, actions);
            var j := w.locks[w.calls[i].key.value];
            && j < |w.calls| && j != i && !Finished(w.calls[j]) && !Blocked(w, j) && w.calls[j].key == w.calls[i].key
  {
    RunKeepsAccounts(EMPTY, actions);
    var w := Run(EMPTY, actions);
    assert LockHeld(w, w.calls[i].key.value);
  }

  /** So in every run, while some call is unfinished, some call can take a step nearer to its answer. */
  lemma CreatesNeverStuck(actions: seq<Action>, i: nat) returns (j: nat)
    requires i < |Run(EMPTY, actions).calls| && !Finished(Run(EMPTY, actions).calls[i])
    ensures var w := Run(EMPTY, actions);
            && j < |w.calls| && !Finished(w.calls[j])
            && Left(Apply(w, NextStep(w.calls[j], j)).calls[j]) < Left(w.calls[j])
  {
    var w := Run(EMPTY, actions);
    j := i;
    if Blocked(w, i) {
      BlockedByLiveCall(actions, i);
      j := w.locks[w.calls[i].key.value];
    }
    StepsLead(w, j);
  }
}
