/** The shared circuit breaker: the pure policy, and the three scripts that keep its state in an expiring hash. */
module Breaker {
  import opened Common

  datatype State = Closed | Open | HalfOpen

  datatype Policy = Policy(failureThreshold: nat, openSeconds: real, successThreshold: nat, maxProbes: nat) {
    predicate Valid() {
      failureThreshold >= 1 && openSeconds > 0.0 && successThreshold >= 1 && maxProbes >= 1
    }
  }

  // ---- the policy functions ----

  datatype Snapshot = Snapshot(state: State, failureCount: nat, successCount: nat, openedAt: Option<real>, probes: nat)

  /** The effective state: an open breaker whose cooldown has passed counts as half-open. */
  function Evaluate(s: Snapshot, now: real, p: Policy): (r: State) {
    if !s.state.Open? then s.state
    else if s.openedAt.None? then Open
    else if now - s.openedAt.value >= p.openSeconds then HalfOpen
    else Open
  }

  function NextAfterFailure(s: Snapshot, now: real, p: Policy): (r: State) {
    match Evaluate(s, now, p)
    case HalfOpen => Open
    case Open => Open
    case Closed => if s.failureCount + 1 >= p.failureThreshold then Open else Closed
  }

  function NextAfterSuccess(s: Snapshot, now: real, p: Policy): (r: State) {
    if Evaluate(s, now, p).HalfOpen? then (if s.successCount + 1 >= p.successThreshold then Closed else HalfOpen)
    else Closed
  }

  predicate AdmitsTraffic(s: Snapshot, now: real, p: Policy) {
    match Evaluate(s, now, p)
    case Closed => true
    case Open => false
    case HalfOpen => s.probes < p.maxProbes
  }

  // ---- the stored hash ----

  /** The fields of the hash; any of them may be absent. */
  datatype Hash = Hash(
    state: Option<State>,
    failureCount: Option<nat>,
    successCount: Option<nat>,
    probes: Option<nat>,
    openedAt: Option<real>)

  const NO_FIELDS := Hash(None, None, None, None, None)

  /** The key: absent, or a hash that expires. */
  datatype Key = Absent | Present(hash: Hash, expiresAt: real)

  function Or<T>(field: Option<T>, otherwise: T): (r: T) {
    if field.Some? then field.value else otherwise
  }

  function Visible(k: Key, now: real): (r: Hash) {
    if k.Present? && now < k.expiresAt then k.hash else NO_FIELDS
  }

  function SnapshotOf(h: Hash): (r: Snapshot) {
    Snapshot(Or(h.state, Closed), Or(h.failureCount, 0), Or(h.successCount, 0), h.openedAt, Or(h.probes, 0))
  }

  const STATE_TTL_MULTIPLIER := 10.0
  const MIN_STATE_TTL_SECONDS := 300

  function TtlSeconds(openSeconds: real): (r: int) {
    var scaled := (openSeconds * STATE_TTL_MULTIPLIER).Floor;
    if scaled > MIN_STATE_TTL_SECONDS then scaled else MIN_STATE_TTL_SECONDS
  }

  /** Writes the fields back and restarts the expiry. */
  function Touched(h: Hash, p: Policy, now: real): (r: Key) {
    Present(h, now + TtlSeconds(p.openSeconds) as real)
  }

  function Opened(h: Hash, now: real): (r: Hash) {
    h.(state := Some(Open), openedAt := Some(now), probes := Some(0), successCount := Some(0))
  }

  // ---- the scripts ----

  function Allow(k: Key, p: Policy, now: real): (r: (Key, bool)) {
    var h := Visible(k, now);
    match Or(h.state, Closed)
    case Closed => (k, true)
    case Open =>
      if now - Or(h.openedAt, 0.0) >= p.openSeconds
      then (Touched(h.(state := Some(HalfOpen), probes := Some(1), successCount := Some(0)), p, now), true)
      else (k, false)
    case HalfOpen =>
      if Or(h.probes, 0) < p.maxProbes then (Touched(h.(probes := Some(Or(h.probes, 0) + 1)), p, now), true)
      else (k, false)
  }

  function RecordFailure(k: Key, p: Policy, now: real): (r: (Key, State)) {
    var h := Visible(k, now);
    match Or(h.state, Closed)
    case HalfOpen => (Touched(Opened(h, now), p, now), Open)
    case Open => (Touched(h, p, now), Open)
    case Closed =>
      var failures := Or(h.failureCount, 0) + 1;
      var counted := h.(failureCount := Some(failures));
      if failures >= p.failureThreshold then (Touched(Opened(counted, now), p, now), Open)
      else (Touched(counted, p, now), Closed)
  }

  function RecordSuccess(k: Key, p: Policy, now: real): (r: (Key, State)) {
    var h := Visible(k, now);
    match Or(h.state, Closed)
    case HalfOpen =>
      var successes := Or(h.successCount, 0) + 1;
      if successes >= p.successThreshold then
        var closed := h.(state := Some(Closed), failureCount := Some(0), successCount := Some(0), probes := Some(0));
        (Touched(closed, p, now), Closed)
      else (Touched(h.(successCount := Some(successes)), p, now), HalfOpen)
    case Open => (Touched(h, p, now), Open)
    case Closed =>
      (Touched(h.(state := Some(Closed), failureCount := Some(0), successCount := Some(0)), p, now), Closed)
  }

  // ---- the scripts as they run ----

  class CircuitBreaker {
    var key: Key
    const policy: Policy

    constructor (p: Policy)
      ensures key == Absent && policy == p
    {
      key := Absent;
      policy := p;
    }

    method Expire(h: Hash, now: real)
      modifies this
      ensures key == Touched(h, policy, now)
    {
      key := Present(h, now + TtlSeconds(policy.openSeconds) as real);
    }

    method AllowScript(now: real) returns (allowed: bool)
      modifies this
      ensures (key, allowed) == Allow(old(key), policy, now)
    {
      var h := Visible(key, now);
      if h.state.None? || h.state.value.Closed? {
        return true;
      }
      if h.state.value.Open? {
        if now - Or(h.openedAt, 0.0) >= policy.openSeconds {
          Expire(h.(state := Some(HalfOpen), probes := Some(1), successCount := Some(0)), now);
          return true;
        }
        return false;
      }
      var probes := Or(h.probes, 0);
      if probes < policy.maxProbes {
        Expire(h.(probes := Some(probes + 1)), now);
        return true;
      }
      return false;
    }

    method FailureScript(now: real) returns (state: State)
      modifies this
      ensures (key, state) == RecordFailure(old(key), policy, now)
    {
      var h := Visible(key, now);
      state := Or(h.state, Closed);
      if state.HalfOpen? {
        Expire(Opened(h, now), now);
        return Open;
      }
      if state.Open? {
        Expire(h, now);
        return Open;
      }
      var failures := Or(h.failureCount, 0) + 1;
      h := h.(failureCount := Some(failures));
      Expire(h, now);
      if failures >= policy.failureThreshold {
        key := key.(hash := Opened(h, now));
        return Open;
      }
      return Closed;
    }

    method SuccessScript(now: real) returns (state: State)
      modifies this
      ensures (key, state) == RecordSuccess(old(key), policy, now)
    {
      var h := Visible(key, now);
      state := Or(h.state, Closed);
      if state.HalfOpen? {
        var successes := Or(h.successCount, 0) + 1;
        if successes >= policy.successThreshold {
          Expire(h.(state := Some(Closed), failureCount := Some(0), successCount := Some(0), probes := Some(0)), now);
          return Closed;
        }
        Expire(h.(successCount := Some(successes)), now);
        return HalfOpen;
      }
      if state.Open? {
        Expire(h, now);
        return Open;
      }
      Expire(h.(state := Some(Closed), failureCount := Some(0), successCount := Some(0)), now);
      return Closed;
    }
  }
}

/** Runs of the breaker: refinement of the policy, and what an episode of probing can do. */
module BreakerRuns {
  import opened Common
  import opened Breaker

  /** What a half-open episode has done so far: probes admitted, and successes counted of its own probes and of calls
      admitted before it began. */
  datatype Episode = Episode(admitted: nat, own: nat, foreign: nat)

  /** `lastOpened`, `episode` and `streak` remember what happened: `streak` counts the failures met while closed since
      the last success that found or left the breaker closed. A reset forgets all three, an expired key the last two. */
  datatype System = System(
    key: Key,
    clock: real,
    lastOpened: Option<real>,
    episode: Option<Episode>,
    streak: nat)

  /** A success is the episode's own when it answers one of its probes. */
  datatype Action = Ask(at: real) | Fail(at: real) | Succeed(at: real, own: bool) | Reset(at: real)

  const FRESH := System(Absent, 0.0, None, None, 0)

  function StateAt(k: Key, now: real): (r: State) {
    Or(Visible(k, now).state, Closed)
  }

  /** Time passes; a key that runs out takes its episode with it. */
  function Wait(s: System, now: real): (r: System) {
    s.(clock := now,
       key := if s.key.Present? && now < s.key.expiresAt then s.key else Absent,
       episode := if s.key.Present? && now < s.key.expiresAt then s.episode else None,
       streak := if s.key.Present? && now < s.key.expiresAt then s.streak else 0)
  }

  function Answer(s: System, p: Policy): (r: System) {
    var before, now := StateAt(s.key, s.clock), s.clock;
    var result := Allow(s.key, p, now);
    s.(key := result.0,
       episode :=
         if before.Open? && result.1 then Some(Episode(1, 0, 0))
         else if before.HalfOpen? && result.1 && s.episode.Some? then
           Some(s.episode.value.(admitted := s.episode.value.admitted + 1))
         else s.episode)
  }

  function Failing(s: System, p: Policy): (r: System) {
    var result := RecordFailure(s.key, p, s.clock);
    s.(key := result.0,
       lastOpened := if result.1.Open? && !StateAt(s.key, s.clock).Open? then Some(s.clock) else s.lastOpened,
       episode := None,
       streak := if StateAt(s.key, s.clock).Closed? then s.streak + 1 else s.streak)
  }

  function Counted(e: Episode, own: bool): (r: Episode) {
    if own then e.(own := e.own + 1) else e.(foreign := e.foreign + 1)
  }

  function Succeeding(s: System, p: Policy, own: bool): (r: System) {
    var result := RecordSuccess(s.key, p, s.clock);
    s.(key := result.0,
       episode := if result.1.HalfOpen? && s.episode.Some? then Some(Counted(s.episode.value, own)) else None,
       streak := if result.1.Closed? then 0 else s.streak)
  }

  /** Clock readings never go back, and a success is an episode's own only while one of its probes is unanswered. */
  predicate Enabled(s: System, a: Action) {
    && s.clock <= a.at
    && (a.Succeed? && a.own ==>
          var t := Wait(s, a.at); t.episode.Some? && t.episode.value.own < t.episode.value.admitted)
  }

  function Apply(s: System, p: Policy, a: Action): (r: System) {
    if !Enabled(s, a) then s else
      var t := Wait(s, a.at);
      match a
      case Ask(_) => Answer(t, p)
      case Fail(_) => Failing(t, p)
      case Succeed(_, own) => Succeeding(t, p, own)
      case Reset(_) => t.(key := Absent, lastOpened := None, episode := None, streak := 0)
  }

  function Run(s: System, p: Policy, actions: seq<Action>): (r: System)
    decreases |actions|
  {
    if actions == [] then s else Run(Apply(s, p, actions[0]), p, actions[1..])
  }

  // ---- the invariant ----

  predicate EpisodeMatches(h: Hash, episode: Option<Episode>, p: Policy) {
    && (episode.Some? <==> h.state == Some(HalfOpen))
    && (episode.Some? ==>
          && Or(h.probes, 0) == episode.value.admitted && 1 <= episode.value.admitted <= p.maxProbes
          && episode.value.own <= episode.value.admitted
          && Or(h.successCount, 0) == episode.value.own + episode.value.foreign < p.successThreshold)
  }

  predicate Inv(s: System, p: Policy) {
    var h := Visible(s.key, s.clock);
    && EpisodeMatches(h, s.episode, p)
    && (h.state == Some(Open) ==>
          && Or(h.probes, 0) == 0
          && h.openedAt.Some? && s.lastOpened == h.openedAt && h.openedAt.value <= s.clock
          && s.key.expiresAt >= h.openedAt.value + p.openSeconds)
    && (s.lastOpened.Some? ==> h.state == Some(Open) || s.clock >= s.lastOpened.value + p.openSeconds)
  }

  lemma TtlCoversCooldown(p: Policy)
    requires p.Valid()
    ensures TtlSeconds(p.openSeconds) as real >= p.openSeconds
  {
  }

  lemma WaitKeeps(s: System, p: Policy, now: real)
    requires p.Valid() && Inv(s, p) && s.clock <= now
    ensures Inv(Wait(s, now), p)
  {
  }

  lemma AnswerKeeps(s: System, p: Policy)
    requires p.Valid() && Inv(s, p)
    ensures Inv(Answer(s, p), p)
  {
    TtlCoversCooldown(p);
  }

  lemma FailingKeeps(s: System, p: Policy)
    requires p.Valid() && Inv(s, p)
    ensures Inv(Failing(s, p), p)
  {
    TtlCoversCooldown(p);
  }

  lemma SucceedingKeeps(s: System, p: Policy, own: bool)
    requires p.Valid() && Inv(s, p)
    requires own ==> s.episode.Some? && s.episode.value.own < s.episode.value.admitted
    ensures Inv(Succeeding(s, p, own), p)
  {
    TtlCoversCooldown(p);
  }

  lemma ApplyKeeps(s: System, p: Policy, a: Action)
    requires p.Valid() && Inv(s, p)
    ensures Inv(Apply(s, p, a), p)
  {
    if Enabled(s, a) {
      var t := Wait(s, a.at);
      WaitKeeps(s, p, a.at);
      match a
      case Ask(_) => AnswerKeeps(t, p);
      case Fail(_) => FailingKeeps(t, p);
      case Succeed(_, own) => SucceedingKeeps(t, p, own);
      case Reset(_) =>
    }
  }

  lemma {:induction false} RunKeeps(s: System, p: Policy, actions: seq<Action>)
    requires p.Valid() && Inv(s, p)
    ensures Inv(Run(s, p, actions), p)
    decreases |actions|
  {
    if actions != [] {
      ApplyKeeps(s, p, actions[0]);
      RunKeeps(Apply(s, p, actions[0]), p, actions[1..]);
    }
  }

  /** A reachable key, read at some later time. */
  lemma Reached(p: Policy, actions: seq<Action>, now: real)
    requires p.Valid() && Run(FRESH, p, actions).clock <= now
    ensures Inv(Wait(Run(FRESH, p, actions), now), p)
    ensures Visible(Wait(Run(FRESH, p, actions), now).key, now) == Visible(Run(FRESH, p, actions).key, now)
  {
    RunKeeps(FRESH, p, actions);
    WaitKeeps(Run(FRESH, p, actions), p, now);
  }

  // ---- what opens the breaker ----

  /** The stored count is the streak, and a closed breaker has not reached its threshold. */
  predicate CountsFit(s: System, p: Policy) {
    && Or(Visible(s.key, s.clock).failureCount, 0) == s.streak
    && (StateAt(s.key, s.clock).Closed? ==> s.streak < p.failureThreshold)
  }

  lemma WaitKeepsCounts(s: System, p: Policy, now: real)
    requires p.Valid() && CountsFit(s, p) && s.clock <= now
    ensures CountsFit(Wait(s, now), p)
  {
  }

  lemma ApplyKeepsCounts(s: System, p: Policy, a: Action)
    requires p.Valid() && CountsFit(s, p)
    ensures CountsFit(Apply(s, p, a), p)
  {
    if Enabled(s, a) {
      WaitKeepsCounts(s, p, a.at);
    }
  }

  lemma {:induction false} RunKeepsCounts(s: System, p: Policy, actions: seq<Action>)
    requires p.Valid() && CountsFit(s, p)
    ensures CountsFit(Run(s, p, actions), p)
    decreases |actions|
  {
    if actions != [] {
      ApplyKeepsCounts(s, p, actions[0]);
      RunKeepsCounts(Apply(s, p, actions[0]), p, actions[1..]);
    }
  }

  /** After any run a closed breaker is opened by a failure exactly when that failure completes the threshold without a
      success, a reset or an expiry in between; and whatever the breaker did before, a failure never leaves it
      half-open. */
  lemma OpensExactlyAtThreshold(p: Policy, actions: seq<Action>, now: real)
    requires p.Valid() && Run(FRESH, p, actions).clock <= now
    ensures var s := Run(FRESH, p, actions);
            var before, after := StateAt(s.key, now), StateAt(Apply(s, p, Fail(now)).key, now);
            && (before.Closed? ==> (after.Open? <==> Wait(s, now).streak + 1 == p.failureThreshold))
            && (before.Closed? ==> after.Open? || after.Closed?) && (!before.Closed? ==> after.Open?)
  {
    var s := Run(FRESH, p, actions);
    RunKeepsCounts(FRESH, p, actions);
    WaitKeepsCounts(s, p, now);
  }

  /** A success that finds the breaker closed, or closes it, wipes out the failures before it: it then takes as many new
      ones as the threshold says. */
  lemma {:induction false} SuccessForgetsFailures(p: Policy, actions: seq<Action>, now: real, own: bool, n: nat)
    requires p.Valid() && Run(FRESH, p, actions).clock <= now && n < p.failureThreshold
    requires Enabled(Run(FRESH, p, actions), Succeed(now, own))
    requires StateAt(Apply(Run(FRESH, p, actions), p, Succeed(now, own)).key, now).Closed?
    ensures var s := FailedTimes(Apply(Run(FRESH, p, actions), p, Succeed(now, own)), p, now, n);
            s.clock == now && s.streak == n && StateAt(s.key, now).Closed? && CountsFit(s, p)
    decreases n
  {
    var s := Run(FRESH, p, actions);
    RunKeepsCounts(FRESH, p, actions);
    ApplyKeepsCounts(s, p, Succeed(now, own));
    if n > 0 {
      SuccessForgetsFailures(p, actions, now, own, n - 1);
      ApplyKeepsCounts(FailedTimes(Apply(s, p, Succeed(now, own)), p, now, n - 1), p, Fail(now));
    }
  }

  function FailedTimes(s: System, p: Policy, now: real, n: nat): (r: System) {
    if n == 0 then s else Apply(FailedTimes(s, p, now, n - 1), p, Fail(now))
  }

  /** A failure that opens the breaker starts the cooldown and leaves no probe and no success counted; a success that
      closes it leaves nothing counted at all. */
  lemma TransitionsClear(k: Key, p: Policy, now: real)
    requires p.Valid()
    ensures RecordFailure(k, p, now).1.Open? && !StateAt(k, now).Open? ==>
              var h := RecordFailure(k, p, now).0.hash;
              h.openedAt == Some(now) && h.probes == Some(0) && h.successCount == Some(0)
    ensures RecordSuccess(k, p, now).1.Closed? && StateAt(k, now).HalfOpen? ==>
              var h := RecordSuccess(k, p, now).0.hash;
              h.failureCount == Some(0) && h.successCount == Some(0) && h.probes == Some(0)
  {
  }

  // ---- expiry ----

  /** The time to live: ten cooldowns in whole seconds, and at least five minutes. */
  lemma TtlIsTenCooldowns(p: Policy)
    ensures var ttl := TtlSeconds(p.openSeconds) as real;
            && ttl >= 300.0 && ttl > 10.0 * p.openSeconds - 1.0
            && (ttl > 300.0 ==> ttl <= 10.0 * p.openSeconds)
  {
  }

  /** Every recorded outcome restarts the expiry; a call that asks restarts it exactly when it is admitted as a probe,
      and otherwise leaves the key as it is. */
  lemma ExpiryRestartsExactlyWhen(k: Key, p: Policy, now: real)
    requires p.Valid()
    ensures var until := now + TtlSeconds(p.openSeconds) as real;
            && RecordFailure(k, p, now).0.Present? && RecordFailure(k, p, now).0.expiresAt == until
            && RecordSuccess(k, p, now).0.Present? && RecordSuccess(k, p, now).0.expiresAt == until
            && (if Allow(k, p, now).1 && !StateAt(k, now).Closed?
                then Allow(k, p, now).0.Present? && Allow(k, p, now).0.expiresAt == until
                else Allow(k, p, now).0 == k)
  {
  }

  // ---- refinement ----

  /** On every reachable key the allow script admits a call exactly when the policy does. */
  lemma AllowRefinesPolicy(p: Policy, actions: seq<Action>, now: real)
    requires p.Valid() && Run(FRESH, p, actions).clock <= now
    ensures var k := Run(FRESH, p, actions).key;
            Allow(k, p, now).1 == AdmitsTraffic(SnapshotOf(Visible(k, now)), now, p)
  {
    Reached(p, actions, now);
  }

  /** On every key the failure script leaves the state the policy decides, and reports it. */
  lemma FailureRefinesPolicy(k: Key, p: Policy, now: real)
    requires p.Valid()
    ensures var result := RecordFailure(k, p, now);
            && result.1 == NextAfterFailure(SnapshotOf(Visible(k, now)), now, p)
            && StateAt(result.0, now) == result.1
  {
  }

  /** The success script agrees with the policy exactly when the stored state is not open; there it stays open. */
  lemma SuccessRefinesPolicyWhen(k: Key, p: Policy, now: real)
    requires p.Valid()
    ensures var result := RecordSuccess(k, p, now);
            && (result.1 == NextAfterSuccess(SnapshotOf(Visible(k, now)), now, p) <==> !StateAt(k, now).Open?)
            && StateAt(result.0, now) == result.1
            && (StateAt(k, now).Open? ==> result.1.Open?)
  {
  }

  // ---- runs ----

  /** No call is admitted within the cooldown after the breaker last opened, key expiry included. */
  lemma CooldownHolds(p: Policy, actions: seq<Action>, now: real)
    requires p.Valid() && Run(FRESH, p, actions).clock <= now
    requires Run(FRESH, p, actions).lastOpened.Some? && Allow(Run(FRESH, p, actions).key, p, now).1
    ensures now >= Run(FRESH, p, actions).lastOpened.value + p.openSeconds
  {
    Reached(p, actions, now);
  }

  /** An episode admits at most the configured number of probes. */
  lemma ProbesAreBounded(p: Policy, actions: seq<Action>)
    requires p.Valid() && Run(FRESH, p, actions).episode.Some?
    ensures 1 <= Run(FRESH, p, actions).episode.value.admitted <= p.maxProbes
  {
    RunKeeps(FRESH, p, actions);
  }

  /** A half-open breaker closes exactly on the success that completes the threshold within one episode. */
  lemma ClosingTakesThreshold(p: Policy, actions: seq<Action>, now: real)
    requires p.Valid() && Run(FRESH, p, actions).clock <= now
    requires StateAt(Run(FRESH, p, actions).key, now).HalfOpen?
    ensures var s := Run(FRESH, p, actions);
            && s.episode.Some?
            && (RecordSuccess(s.key, p, now).1.Closed? <==>
                  s.episode.value.own + s.episode.value.foreign + 1 == p.successThreshold)
  {
    Reached(p, actions, now);
  }

  /** The success `a` closes the half-open breaker that the run has led to. */
  predicate Closes(s: System, p: Policy, a: Action) {
    && a.Succeed? && Enabled(s, a)
    && StateAt(s.key, a.at).HalfOpen? && StateAt(Apply(s, p, a).key, a.at).Closed?
  }

  /** In every run, when a success closes the breaker the foreign successes of the episode, this one included, make up
      whatever its own probes fall short of the threshold. */
  lemma ClosingNeedsForeign(p: Policy, actions: seq<Action>, a: Action)
    requires p.Valid() && Closes(Run(FRESH, p, actions), p, a)
    ensures var s := Run(FRESH, p, actions);
            && s.episode.Some?
            && var e := Counted(s.episode.value, a.own);
               && e.own + e.foreign == p.successThreshold && e.own <= e.admitted <= p.maxProbes
               && e.foreign >= p.successThreshold - e.admitted
  {
    Reached(p, actions, a.at);
    ClosingTakesThreshold(p, actions, a.at);
  }

  // ---- exactly when an episode's own probes can close it ----

  /** The work of the episode itself: asking, and the success of an admitted probe. */
  predicate OwnWork(a: Action) {
    a.Ask? || (a.Succeed? && a.own)
  }

  predicate AllOwn(actions: seq<Action>) {
    forall i :: 0 <= i < |actions| ==> OwnWork(actions[i])
  }

  predicate Probing(s: System, p: Policy) {
    p.Valid() && Inv(s, p) && s.episode.Some?
  }

  lemma AskAdmits(s: System, p: Policy)
    requires Probing(s, p) && s.episode.value.admitted < p.maxProbes
    ensures var e, r := s.episode.value, Apply(s, p, Ask(s.clock));
            Probing(r, p) && r.clock == s.clock && r.episode == Some(e.(admitted := e.admitted + 1))
  {
    ApplyKeeps(s, p, Ask(s.clock));
  }

  lemma OwnSuccessCounts(s: System, p: Policy)
    requires Probing(s, p) && s.episode.value.own < s.episode.value.admitted
    requires s.episode.value.own + s.episode.value.foreign + 1 < p.successThreshold
    ensures var e, r := s.episode.value, Apply(s, p, Succeed(s.clock, true));
            Probing(r, p) && r.clock == s.clock && r.episode == Some(e.(own := e.own + 1))
  {
    ApplyKeeps(s, p, Succeed(s.clock, true));
  }

  lemma OwnSuccessCloses(s: System, p: Policy)
    requires Probing(s, p) && s.episode.value.own < s.episode.value.admitted
    requires s.episode.value.own + s.episode.value.foreign + 1 == p.successThreshold
    ensures Closes(s, p, Succeed(s.clock, true))
  {
  }

  /** The episode works on by itself and closes the breaker with `a`. */
  predicate ClosesByOwn(s: System, p: Policy, actions: seq<Action>, a: Action) {
    AllOwn(actions) && a.Succeed? && a.own && Closes(Run(s, p, actions), p, a)
  }

  lemma OwnWorkPrepends(s: System, p: Policy, first: Action, actions: seq<Action>, a: Action)
    requires OwnWork(first) && ClosesByOwn(Apply(s, p, first), p, actions, a)
    ensures ClosesByOwn(s, p, [first] + actions, a)
  {
    assert ([first] + actions)[1..] == actions;
  }

  lemma {:induction false} OwnProbesClose(s: System, p: Policy) returns (actions: seq<Action>, a: Action)
    requires Probing(s, p) && p.successThreshold <= p.maxProbes + s.episode.value.foreign
    ensures ClosesByOwn(s, p, actions, a)
    decreases p.successThreshold - s.episode.value.own, p.maxProbes - s.episode.value.admitted
  {
    var e := s.episode.value;
    a := Succeed(s.clock, true);
    if e.own == e.admitted {
      AskAdmits(s, p);
      actions, a := OwnProbesClose(Apply(s, p, Ask(s.clock)), p);
      OwnWorkPrepends(s, p, Ask(s.clock), actions, a);
      actions := [Ask(s.clock)] + actions;
    } else if e.own + e.foreign + 1 == p.successThreshold {
      OwnSuccessCloses(s, p);
      actions := [];
    } else {
      OwnSuccessCounts(s, p);
      var first := a;
      actions, a := OwnProbesClose(Apply(s, p, first), p);
      OwnWorkPrepends(s, p, first, actions, a);
      actions := [first] + actions;
    }
  }

  /** Half-open or closed, and with just these foreign successes in the episode, if it is still on. */
  predicate OnlyForeign(s: System, p: Policy, foreign: nat) {
    Inv(s, p) && !StateAt(s.key, s.clock).Open? && (s.episode.Some? ==> s.episode.value.foreign == foreign)
  }

  lemma {:induction false} OwnWorkAddsNoForeign(s: System, p: Policy, actions: seq<Action>, foreign: nat)
    requires p.Valid() && OnlyForeign(s, p, foreign) && AllOwn(actions)
    ensures OnlyForeign(Run(s, p, actions), p, foreign)
    decreases |actions|
  {
    if actions != [] {
      ApplyKeeps(s, p, actions[0]);
      assert OwnWork(actions[0]);
      OwnWorkAddsNoForeign(Apply(s, p, actions[0]), p, actions[1..], foreign);
    }
  }

  lemma ClosingFitsLimit(s: System, p: Policy, a: Action)
    requires p.Valid() && Inv(s, p) && Closes(s, p, a) && a.own && s.episode.Some?
    ensures p.successThreshold <= p.maxProbes + s.episode.value.foreign
  {
    WaitKeeps(s, p, a.at);
  }

  /** After any run that leaves the breaker half-open, the episode can be closed by its own probes exactly when the
      probe limit and the foreign successes it has seen reach the threshold. With the default limits, one probe and two
      successes, an episode without foreign successes cannot. */
  lemma OwnProbesCloseExactlyWhen(p: Policy, history: seq<Action>)
    requires p.Valid() && Run(FRESH, p, history).episode.Some?
    ensures var s := Run(FRESH, p, history);
            (exists actions, a :: ClosesByOwn(s, p, actions, a)) <==>
            p.successThreshold <= p.maxProbes + s.episode.value.foreign
  {
    var s := Run(FRESH, p, history);
    RunKeeps(FRESH, p, history);
    var foreign := s.episode.value.foreign;
    if actions, a :| ClosesByOwn(s, p, actions, a) {
      OwnWorkAddsNoForeign(s, p, actions, foreign);
      ClosingEndsEpisode(Run(s, p, actions), p, a);
      ClosingFitsLimit(Run(s, p, actions), p, a);
    }
    if p.successThreshold <= p.maxProbes + foreign {
      var actions, a := OwnProbesClose(s, p);
    }
  }

  lemma ClosingEndsEpisode(s: System, p: Policy, a: Action)
    requires p.Valid() && Inv(s, p) && Closes(s, p, a)
    ensures s.episode.Some?
  {
    WaitKeeps(s, p, a.at);
  }

  // ---- runs that get there ----

  lemma TtlOutlivesCooldown(p: Policy)
    requires p.Valid()
    ensures TtlSeconds(p.openSeconds) as real > p.openSeconds
  {
  }

  /** Open since this very moment. */
  predicate JustOpened(s: System, p: Policy) {
    && s.key.Present? && s.key.expiresAt == s.clock + TtlSeconds(p.openSeconds) as real
    && s.key.hash.state == Some(Open) && s.key.hash.openedAt == Some(s.clock)
  }

  lemma {:induction false} FailuresOpen(s: System, p: Policy) returns (actions: seq<Action>)
    requires p.Valid() && StateAt(s.key, s.clock).Closed?
    ensures JustOpened(Run(s, p, actions), p) && Run(s, p, actions).clock == s.clock
    decreases var n := Or(Visible(s.key, s.clock).failureCount, 0);
              if n < p.failureThreshold then p.failureThreshold - n else 0
  {
    var a := Fail(s.clock);
    var r := Apply(s, p, a);
    if JustOpened(r, p) {
      actions := [a];
    } else {
      var rest := FailuresOpen(r, p);
      actions := [a] + rest;
      assert actions[1..] == rest;
    }
  }

  lemma {:induction false} RunsCompose(s: System, p: Policy, first: seq<Action>, rest: seq<Action>)
    ensures Run(s, p, first + rest) == Run(Run(s, p, first), p, rest)
    decreases |first|
  {
    if first == [] {
      assert first + rest == rest;
    } else {
      assert (first + rest)[1..] == first[1..] + rest;
      RunsCompose(Apply(s, p, first[0]), p, first[1..], rest);
    }
  }

  /** Under every policy some run reaches a stored open state, and there a success sets the script and the policy at
      odds. */
  lemma StoredOpenIsReached(p: Policy)
    requires p.Valid()
    ensures exists actions ::
      var s := Run(FRESH, p, actions);
      && StateAt(s.key, s.clock).Open?
      && RecordSuccess(s.key, p, s.clock).1 != NextAfterSuccess(SnapshotOf(Visible(s.key, s.clock)), s.clock, p)
  {
    var actions := FailuresOpen(FRESH, p);
    var s := Run(FRESH, p, actions);
    TtlOutlivesCooldown(p);
    SuccessRefinesPolicyWhen(s.key, p, s.clock);
  }

  lemma CooldownEnds(s: System, p: Policy)
    requires p.Valid() && Inv(s, p) && JustOpened(s, p)
    ensures var r := Apply(s, p, Ask(s.clock + p.openSeconds)); Probing(r, p) && r.episode == Some(Episode(1, 0, 0))
  {
    TtlOutlivesCooldown(p);
    ApplyKeeps(s, p, Ask(s.clock + p.openSeconds));
  }

  /** Every probe the limit allows is admitted and succeeds. */
  lemma {:induction false} ProbesRunOut(s: System, p: Policy) returns (actions: seq<Action>)
    requires Probing(s, p) && s.episode.value.foreign == 0 && p.successThreshold > p.maxProbes
    ensures Probing(Run(s, p, actions), p) && Run(s, p, actions).episode == Some(Episode(p.maxProbes, p.maxProbes, 0))
    decreases p.maxProbes - s.episode.value.own, p.maxProbes - s.episode.value.admitted
  {
    var e := s.episode.value;
    if e.own < e.admitted {
      OwnSuccessCounts(s, p);
      var rest := ProbesRunOut(Apply(s, p, Succeed(s.clock, true)), p);
      actions := [Succeed(s.clock, true)] + rest;
      assert actions[1..] == rest;
    } else if e.admitted < p.maxProbes {
      AskAdmits(s, p);
      var rest := ProbesRunOut(Apply(s, p, Ask(s.clock)), p);
      actions := [Ask(s.clock)] + rest;
      assert actions[1..] == rest;
    } else {
      actions := [];
    }
  }

  /** Half-open, with every probe used. */
  predicate Spent(s: System, p: Policy) {
    && s.key.Present? && s.clock < s.key.expiresAt
    && s.key.hash.state == Some(HalfOpen) && Or(s.key.hash.probes, 0) >= p.maxProbes
  }

  /** Under every policy whose threshold is above its probe limit, as the defaults have it, a run leads to an episode
      that has used all its probes, all of them with success, and is still half-open. */
  lemma SpentEpisodeIsReached(p: Policy)
    requires p.Valid() && p.successThreshold > p.maxProbes
    ensures exists actions ::
      Spent(Run(FRESH, p, actions), p) &&
      Run(FRESH, p, actions).episode == Some(Episode(p.maxProbes, p.maxProbes, 0))
  {
    var opening := FailuresOpen(FRESH, p);
    var atOpen := Run(FRESH, p, opening);
    RunKeeps(FRESH, p, opening);
    CooldownEnds(atOpen, p);
    var ask := Ask(atOpen.clock + p.openSeconds);
    var probing := ProbesRunOut(Apply(atOpen, p, ask), p);
    assert ([ask] + probing)[1..] == probing;
    RunsCompose(FRESH, p, opening, [ask] + probing);
    var s := Run(FRESH, p, opening + ([ask] + probing));
    assert Probing(s, p);
  }

  function Asks(times: seq<real>): (r: seq<Action>) {
    seq(|times|, i requires 0 <= i < |times| => Ask(times[i]))
  }

  /** Once an episode has used its probes, asking changes nothing and admits nothing until the key runs out: refused
      calls do not extend it. */
  lemma {:induction false} SpentEpisodeWaitsForExpiry(s: System, p: Policy, times: seq<real>)
    requires p.Valid() && Spent(s, p)
    requires forall i :: 0 <= i < |times| ==> times[i] < s.key.expiresAt
    ensures Run(s, p, Asks(times)).key == s.key
    ensures forall i :: 0 <= i < |times| ==> !Allow(s.key, p, times[i]).1
    ensures forall later :: later >= s.key.expiresAt ==> Allow(s.key, p, later).1
    decreases |times|
  {
    if times != [] {
      var t := Apply(s, p, Ask(times[0]));
      assert t.key == s.key;
      assert Asks(times)[0] == Ask(times[0]);
      assert Asks(times)[1..] == Asks(times[1..]);
      SpentEpisodeWaitsForExpiry(t, p, times[1..]);
    }
  }
}
