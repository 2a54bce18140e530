/**
 The persisted recovery state and what each RecoveryService call does to it
 (src/ai_hq/recovery/service.py). One call is one database transaction, so one event.
 */
module RecoveryStore {
  import opened Prelude
  import opened RecoveryPolicy
  import Runs

  datatype IncidentState = Suspect | Diagnosing | RecoveryPending | Recovering | Verifying | Resolved | Escalated

  /** Lengths are clock ticks; the constructor of the service refuses any other configuration. */
  datatype Config = Config(failureThreshold: int, observation: int, cooldown: int, budget: int, window: int) {
    predicate Accepted() {
      failureThreshold >= 2 && observation >= 1 && cooldown >= 1 && budget >= 1 && window >= cooldown
    }
  }

  datatype Incident = Incident(
    activeKey: Option<Component>,
    component: Component,
    state: IncidentState,
    consecutiveFailures: int,
    firstFailureAt: int,
    lastFailureAt: int,
    lastObservedAt: int,
    missionId: Option<nat>,
    lastAttemptAt: Option<int>,
    escalationReason: Option<string>,
    resolvedAt: Option<int>)

  datatype Attempt = Attempt(
    incidentId: nat, component: Component, missionId: Option<nat>, at: int, simulated: bool, outcome: string)

  /** Rows are numbered in insertion order; a row's number is its primary key. */
  datatype Store = Store(cfg: Config, incidents: seq<Incident>, attempts: seq<Attempt>, now: int)

  datatype Event =
    | Tick(ticks: nat)
    | ObserveFailure(component: Component)
    | ResolveIfHealthy(component: Component)
    | UpdateDiagnostics(id: nat)
    | MarkRecoveryPending(id: nat)
    | AttachMission(id: nat, missionId: nat)
    | ClaimRecovery(id: nat)
    | RecordAttempt(id: nat, attemptMission: Option<nat>, simulated: bool, outcome: string)
    | MarkVerifying(id: nat)
    | Resolve(id: nat)
    | Escalate(id: nat, reason: string)

  function Init(cfg: Config, now: int): Store {
    Store(cfg, [], [], now)
  }

  /** The incident holding a component's active key: the first such row. */
  function ActiveIncident(incidents: seq<Incident>, c: Component): (r: Option<nat>)
    ensures r.Some? ==> r.value < |incidents| && incidents[r.value].activeKey == Some(c)
    ensures r.Some? ==> forall i :: 0 <= i < r.value ==> incidents[i].activeKey != Some(c)
    ensures r.None? ==> forall i :: 0 <= i < |incidents| ==> incidents[i].activeKey != Some(c)
  {
    if incidents == [] then None
    else
      var front := |incidents| - 1;
      var earlier := ActiveIncident(incidents[..front], c);
      if earlier.Some? then earlier
      else if incidents[front].activeKey == Some(c) then Some(front)
      else None
  }

  /** The active incident a mission is attached to (`incident_for_mission`). */
  function IncidentForMission(incidents: seq<Incident>, m: nat): (r: Option<nat>)
    ensures r.Some? ==> r.value < |incidents| && incidents[r.value].missionId == Some(m) && incidents[r.value].activeKey.Some?
    ensures r.None? ==> forall i :: 0 <= i < |incidents| ==> !(incidents[i].missionId == Some(m) && incidents[i].activeKey.Some?)
  {
    if incidents == [] then None
    else
      var front := |incidents| - 1;
      var earlier := IncidentForMission(incidents[..front], m);
      if earlier.Some? then earlier
      else if incidents[front].missionId == Some(m) && incidents[front].activeKey.Some? then Some(front)
      else None
  }

  predicate Real(a: Attempt, c: Component) {
    a.component == c && !a.simulated
  }

  /** How many real attempts on `c` carry a time in [from, upTo]. */
  function CountBetween(attempts: seq<Attempt>, c: Component, from: int, upTo: int): nat {
    if attempts == [] then 0
    else
      var last := attempts[|attempts| - 1];
      CountBetween(attempts[..|attempts| - 1], c, from, upTo)
      + (if Real(last, c) && from <= last.at <= upTo then 1 else 0)
  }

  /** The query of `can_recover`: real attempts on `c` not older than `from`. */
  function CountSince(attempts: seq<Attempt>, c: Component, from: int): nat {
    if attempts == [] then 0
    else
      var last := attempts[|attempts| - 1];
      CountSince(attempts[..|attempts| - 1], c, from) + (if Real(last, c) && from <= last.at then 1 else 0)
  }

  datatype Allowance = Allowed | StateNotPending | BudgetExhausted | Cooldown

  function CanRecover(s: Store, id: nat): Allowance
    requires id < |s.incidents|
  {
    var i := s.incidents[id];
    if i.activeKey.None? || !i.state.RecoveryPending? then StateNotPending
    else if CountSince(s.attempts, i.component, s.now - s.cfg.window) >= s.cfg.budget then BudgetExhausted
    else if i.lastAttemptAt.Some? && s.now - i.lastAttemptAt.value < s.cfg.cooldown then Cooldown
    else Allowed
  }

  /** The component has spent its budget: counted over the closed window that ends now. */
  predicate Exhausted(s: Store, id: nat)
    requires id < |s.incidents|
  {
    CountBetween(s.attempts, s.incidents[id].component, s.now - s.cfg.window, s.now) >= s.cfg.budget
  }

  predicate CoolingDown(s: Store, id: nat)
    requires id < |s.incidents|
  {
    s.incidents[id].lastAttemptAt.Some? && s.now < s.incidents[id].lastAttemptAt.value + s.cfg.cooldown
  }

  lemma {:induction false} SinceIsBetween(attempts: seq<Attempt>, c: Component, from: int, now: int)
    requires forall k :: 0 <= k < |attempts| ==> attempts[k].at <= now
    ensures CountBetween(attempts, c, from, now) == CountSince(attempts, c, from)
    decreases |attempts|
  {
    if attempts != [] {
      SinceIsBetween(attempts[..|attempts| - 1], c, from, now);
    }
  }

  /** Which answer is given: an inactive or not pending incident first, then the budget, then the cooldown. */
  lemma CanRecoverMeans(s: Store, id: nat)
    requires id < |s.incidents| && forall k :: 0 <= k < |s.attempts| ==> s.attempts[k].at <= s.now
    ensures var pending := s.incidents[id].activeKey.Some? && s.incidents[id].state == RecoveryPending;
            && (CanRecover(s, id) == StateNotPending <==> !pending)
            && (CanRecover(s, id) == BudgetExhausted <==> pending && Exhausted(s, id))
            && (CanRecover(s, id) == Cooldown <==> pending && !Exhausted(s, id) && CoolingDown(s, id))
            && (CanRecover(s, id) == Allowed <==> pending && !Exhausted(s, id) && !CoolingDown(s, id))
  {
    SinceIsBetween(s.attempts, s.incidents[id].component, s.now - s.cfg.window, s.now);
  }

  function Put(s: Store, id: nat, i: Incident): Store
    requires id < |s.incidents|
  {
    s.(incidents := s.incidents[id := i])
  }

  function Observed(s: Store, i: Incident): Incident {
    if s.now - i.lastObservedAt < s.cfg.observation then i
    else
      i.(consecutiveFailures := i.consecutiveFailures + 1, lastFailureAt := s.now, lastObservedAt := s.now,
         state := if i.state.Suspect? && i.consecutiveFailures + 1 >= s.cfg.failureThreshold then Diagnosing else i.state)
  }

  function Opened(s: Store, c: Component): Incident {
    Incident(Some(c), c, Suspect, 1, s.now, s.now, s.now, None, None, None, None)
  }

  function Closed(s: Store, i: Incident): Incident {
    i.(state := Resolved, activeKey := None, consecutiveFailures := 0, lastObservedAt := s.now, resolvedAt := Some(s.now))
  }

  predicate Pendable(i: Incident) {
    i.activeKey.Some? && (i.state.Suspect? || i.state.Diagnosing? || i.state.RecoveryPending?)
  }

  predicate Attachable(i: Incident) {
    i.activeKey.Some? && i.state.RecoveryPending? && i.missionId.None?
  }

  /** What one call commits; a call that raises commits nothing. */
  function Apply(s: Store, e: Event): Store {
    match e
    case Tick(ticks) => s.(now := s.now + ticks)
    case ObserveFailure(c) =>
      if c.Unlisted? then s
      else
        var active := ActiveIncident(s.incidents, c);
        if active.None? then s.(incidents := s.incidents + [Opened(s, c)])
        else Put(s, active.value, Observed(s, s.incidents[active.value]))
    case ResolveIfHealthy(c) =>
      var active := ActiveIncident(s.incidents, c);
      if c.Unlisted? || active.None? then s else Put(s, active.value, Closed(s, s.incidents[active.value]))
    case UpdateDiagnostics(id) =>
      if id < |s.incidents| && s.incidents[id].activeKey.Some?
      then Put(s, id, s.incidents[id].(lastObservedAt := s.now)) else s
    case MarkRecoveryPending(id) =>
      if id < |s.incidents| && Pendable(s.incidents[id])
      then Put(s, id, s.incidents[id].(state := RecoveryPending, lastObservedAt := s.now)) else s
    case AttachMission(id, m) =>
      if id < |s.incidents| && Attachable(s.incidents[id])
      then Put(s, id, s.incidents[id].(missionId := Some(m))) else s
    case ClaimRecovery(id) =>
      if id < |s.incidents| && s.incidents[id].activeKey.Some? && s.incidents[id].state.RecoveryPending?
      then Put(s, id, s.incidents[id].(state := Recovering)) else s
    case RecordAttempt(id, m, simulated, outcome) =>
      if outcome == "" || |outcome| > 32 || id >= |s.incidents| then s
      else
        var i := s.incidents[id];
        Put(s, id, if simulated then i else i.(lastAttemptAt := Some(s.now)))
        .(attempts := s.attempts + [Attempt(id, i.component, m, s.now, simulated, outcome)])
    case MarkVerifying(id) =>
      if id < |s.incidents| && s.incidents[id].activeKey.Some?
      then Put(s, id, s.incidents[id].(state := Verifying, lastObservedAt := s.now)) else s
    case Resolve(id) =>
      if id < |s.incidents| then Put(s, id, Closed(s, s.incidents[id])) else s
    case Escalate(id, reason) =>
      if reason == "" || id >= |s.incidents| then s
      else Put(s, id, s.incidents[id].(state := Escalated, activeKey := None, resolvedAt := Some(s.now), lastObservedAt := s.now,
                                       escalationReason := Some(if |reason| > 2048 then reason[..2048] else reason)))
  }

  // ---------- what every call keeps ----------

  /** The active key is set exactly in the non-terminal states, and names the incident's own component. */
  predicate KeySound(i: Incident) {
    && (i.activeKey.Some? <==> i.state != Resolved && i.state != Escalated)
    && (i.activeKey.Some? ==> i.activeKey.value == i.component && !i.component.Unlisted?)
  }

  ghost predicate OnePerComponent(incidents: seq<Incident>) {
    forall i, j :: 0 <= i < j < |incidents| && incidents[i].activeKey.Some? && incidents[j].activeKey.Some?
                   ==> incidents[i].component != incidents[j].component
  }

  /** Failures of an active incident are at least one observation interval apart. */
  predicate Spaced(cfg: Config, now: int, i: Incident) {
    i.activeKey.Some? ==>
      && i.consecutiveFailures >= 1
      && i.firstFailureAt + (i.consecutiveFailures - 1) * cfg.observation <= i.lastFailureAt
      && i.lastFailureAt <= i.lastObservedAt <= now
  }

  ghost predicate Inv(s: Store) {
    && (forall i :: 0 <= i < |s.incidents| ==> KeySound(s.incidents[i]) && Spaced(s.cfg, s.now, s.incidents[i]))
    && OnePerComponent(s.incidents)
    && (forall k :: 0 <= k < |s.attempts| ==> s.attempts[k].at <= s.now)
  }

  /** What a call never does to an incident: reopen it, rename it, change its mission. */
  predicate Grown(i: Incident, j: Incident) {
    && j.component == i.component && j.firstFailureAt == i.firstFailureAt
    && (i.activeKey.None? ==> j.activeKey.None?)
    && (i.missionId.Some? ==> j.missionId == i.missionId)
  }

  ghost predicate Later(s: Store, t: Store) {
    && t.cfg == s.cfg && s.now <= t.now
    && |s.incidents| <= |t.incidents|
    && (forall i :: 0 <= i < |s.incidents| ==> Grown(s.incidents[i], t.incidents[i]))
    && s.attempts <= t.attempts
  }

  lemma ObservedSpaced(s: Store, i: Incident)
    requires Spaced(s.cfg, s.now, i)
    ensures Spaced(s.cfg, s.now, Observed(s, i))
  {
  }

  /** Rewriting one incident without reopening it keeps the invariant. */
  lemma PutKeeps(s: Store, id: nat, i: Incident)
    requires Inv(s) && id < |s.incidents|
    requires KeySound(i) && Spaced(s.cfg, s.now, i) && Grown(s.incidents[id], i)
    ensures Inv(Put(s, id, i)) && Later(s, Put(s, id, i))
  {
  }

  lemma OpenKeeps(s: Store, c: Component)
    requires Inv(s) && !c.Unlisted? && ActiveIncident(s.incidents, c).None?
    ensures Inv(s.(incidents := s.incidents + [Opened(s, c)]))
    ensures Later(s, s.(incidents := s.incidents + [Opened(s, c)]))
  {
  }

  lemma TickKeeps(s: Store, ticks: nat)
    requires Inv(s)
    ensures Inv(s.(now := s.now + ticks)) && Later(s, s.(now := s.now + ticks))
  {
  }

  lemma AttemptKeeps(s: Store, a: Attempt)
    requires Inv(s) && a.at == s.now
    ensures Inv(s.(attempts := s.attempts + [a])) && Later(s, s.(attempts := s.attempts + [a]))
  {
  }

  lemma StepKeeps(s: Store, e: Event)
    requires Inv(s)
    ensures Inv(Apply(s, e)) && Later(s, Apply(s, e))
  {
    match e
    case Tick(ticks) => TickKeeps(s, ticks);
    case ObserveFailure(c) =>
      var active := ActiveIncident(s.incidents, c);
      if active.None? && !c.Unlisted? {
        OpenKeeps(s, c);
      } else if active.Some? {
        ObservedSpaced(s, s.incidents[active.value]);
        PutKeeps(s, active.value, Observed(s, s.incidents[active.value]));
      }
    case ResolveIfHealthy(c) =>
      var active := ActiveIncident(s.incidents, c);
      if active.Some? {
        PutKeeps(s, active.value, Closed(s, s.incidents[active.value]));
      }
    case UpdateDiagnostics(id) => PutRowKeeps(s, e, id);
    case MarkRecoveryPending(id) => PutRowKeeps(s, e, id);
    case AttachMission(id, m) => PutRowKeeps(s, e, id);
    case ClaimRecovery(id) => PutRowKeeps(s, e, id);
    case RecordAttempt(id, m, simulated, outcome) => RecordKeeps(s, e);
    case MarkVerifying(id) => PutRowKeeps(s, e, id);
    case Resolve(id) => PutRowKeeps(s, e, id);
    case Escalate(id, reason) => PutRowKeeps(s, e, id);
  }

  lemma PutRowKeeps(s: Store, e: Event, id: nat)
    requires Inv(s)
    requires match e
             case UpdateDiagnostics(i) => i == id
             case MarkRecoveryPending(i) => i == id
             case AttachMission(i, _) => i == id
             case ClaimRecovery(i) => i == id
             case MarkVerifying(i) => i == id
             case Resolve(i) => i == id
             case Escalate(i, _) => i == id
             case _ => false
    ensures Inv(Apply(s, e)) && Later(s, Apply(s, e))
  {
    if id < |s.incidents| {
      var was, t := s.incidents[id], Apply(s, e);
      assert Spaced(s.cfg, s.now, was) && KeySound(was);
      PutKeeps(s, id, t.incidents[id]);
      assert t == s || t == Put(s, id, t.incidents[id]);
    }
  }

  lemma RecordKeeps(s: Store, e: Event)
    requires Inv(s) && e.RecordAttempt?
    ensures Inv(Apply(s, e)) && Later(s, Apply(s, e))
  {
  }

  /** Every sequence of calls keeps the invariant and only ever moves incidents forward. */
  lemma RunKeeps(s: Store, es: seq<Event>)
    requires Inv(s)
    ensures Inv(Runs.Replay(Apply, s, es)) && Later(s, Runs.Replay(Apply, s, es))
  {
    forall t, e | Inv(t)
      ensures Inv(Apply(t, e)) && Later(t, Apply(t, e))
    {
      StepKeeps(t, e);
    }
    Runs.Ordered(Apply, Inv, Later, s, es);
  }
}
