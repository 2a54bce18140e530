/**
 The objects that drive the recovery loop: RecoveryObserver (src/ai_hq/recovery/observer.py) and
 DripVidRecoveryCycle (src/ai_hq/recovery/bootstrap.py). Their methods are proved to be runs of
 RecoveryLoop, so the budget holds at every moment of their lives.
 */
module RecoveryCycle {
  import opened Prelude
  import opened RecoveryPolicy
  import RecoveryStore
  import opened RecoveryLoop
  import S = RecoveryService
  import Runs

  const COMPONENTS: seq<Component> := [App, Mcp, Proxy, Tunnel, Database]

  function ReasonText(r: Reason): (text: string)
    ensures 0 < |text| <= 2048
  {
    match r
    case StorageUnavailable => "storage_unavailable"
    case StorageUnwritable => "storage_unwritable"
    case DatabaseRunningButUnhealthy => "database_running_but_unhealthy"
    case UnknownComponent => "unknown_component"
    case _ => "other"
  }

  /** A recovered service runs and reports ready; the database must also report itself healthy. */
  predicate VerificationHealthy(c: Component, readiness: Readiness, service: ServiceState) {
    service.Running? && readiness.ok.Yes? && (c.Database? ==> readiness.database.Yes?)
  }

  predicate ComponentFailed(c: Component, readiness: Readiness, status: Option<ServiceState>) {
    && status.Some?
    && (status.value.Down? || (c.App? && !readiness.ok.Yes?) || (c.Database? && readiness.database.No?))
  }

  predicate ComponentHealthy(c: Component, readiness: Readiness, status: Option<ServiceState>) {
    && status.Some? && status.value.Running?
    && (c.App? ==> readiness.ok.Yes?) && (c.Database? ==> readiness.database.Yes?)
  }

  function State(status: Option<ServiceState>): ServiceState {
    if status.Some? then status.value else Uncertain
  }

  /** The state in which `create_recovery_mission` asks for permission. */
  function Marked(l: Loop, i: nat): RecoveryStore.Store {
    RecoveryStore.Apply(l.store, RecoveryStore.MarkRecoveryPending(i))
  }

  type Incidents = seq<RecoveryStore.Incident>

  /** Only row `id` changed, and it is still an incident of its component. */
  ghost predicate OnlyRow(was: Incidents, becomes: Incidents, id: nat) {
    && |becomes| == |was| && id < |was| && becomes[id].component == was[id].component
    && forall i :: 0 <= i < |was| && i != id ==> becomes[i] == was[i]
  }

  /** Only row `id` changed, and it counts the same failures. */
  ghost predicate SameFailures(was: Incidents, becomes: Incidents, id: nat) {
    OnlyRow(was, becomes, id) && becomes[id].consecutiveFailures == was[id].consecutiveFailures
  }

  /** The incident was closed because its component has spent its budget. */
  predicate ClosedForBudget(i: RecoveryStore.Incident) {
    i.state == RecoveryStore.Escalated && i.activeKey.None? && i.escalationReason == Some("budget_exhausted")
  }

  /** An active incident that has not yet been handed to a mission. */
  predicate Waiting(i: RecoveryStore.Incident) {
    i.activeKey.Some? && i.state in {RecoveryStore.Suspect, RecoveryStore.Diagnosing, RecoveryStore.RecoveryPending}
  }

  /** One failure of component c was counted: in its active incident, or in a new one. */
  ghost predicate FailureCounted(s: RecoveryStore.Store, becomes: Incidents, c: Component, id: nat) {
    var active := RecoveryStore.ActiveIncident(s.incidents, c);
    if active.Some? then
      && id == active.value && OnlyRow(s.incidents, becomes, id)
      && becomes[id].consecutiveFailures
         == s.incidents[id].consecutiveFailures + (if s.now - s.incidents[id].lastObservedAt < s.cfg.observation then 0 else 1)
    else
      && id == |s.incidents| && |becomes| == id + 1 && becomes[..id] == s.incidents
      && becomes[id].component == c && becomes[id].consecutiveFailures == 1
  }

  /** In sound tables every observed failure is counted in one incident of its component. */
  lemma ObservedIsCounted(s: RecoveryStore.Store, c: Component)
    requires RecoveryStore.Inv(s) && !c.Unlisted?
    ensures var active := RecoveryStore.ActiveIncident(s.incidents, c);
            FailureCounted(s, RecoveryStore.Apply(s, RecoveryStore.ObserveFailure(c)).incidents, c,
                           if active.Some? then active.value else |s.incidents|)
  {
  }

  class RecoveryObserver {
    const recovery: S.RecoveryService
    const failureThreshold: int
    const notifications: bool
    var observeOnly: bool
    var missions: seq<Mission>
    ghost var creations: seq<Creation>
    ghost var trace: seq<Event>
    ghost const start: int

    ghost function View(): Loop
      reads this, recovery
    {
      Loop(recovery.View(), failureThreshold, creations, missions)
    }

    ghost function Origin(): Loop {
      Init(recovery.cfg, failureThreshold, start)
    }

    ghost predicate Valid()
      reads this, recovery
    {
      recovery.Valid() && View() == Runs.Replay(PromptStep, Origin(), trace)
    }

    /** At every moment: the budget, the spacing and the mission bookkeeping of the loop. */
    lemma Sound()
      requires Valid()
      ensures RecoveryLoop.Inv(View())
    {
      RunKeeps(recovery.cfg, failureThreshold, start, trace);
    }

    constructor (recovery: S.RecoveryService, failureThreshold: int, notifications: bool)
      requires recovery.Valid() && recovery.history == [] && failureThreshold >= 2
      ensures Valid() && this.recovery == recovery && missions == [] && trace == [] && !observeOnly
      ensures this.failureThreshold == failureThreshold && this.notifications == notifications
    {
      this.recovery, this.failureThreshold, this.notifications := recovery, failureThreshold, notifications;
      this.start := recovery.start;
      observeOnly, missions, creations, trace := false, [], [], [];
    }

    /** Appends an event whose effect on the tables has just been carried out. */
    ghost method Log(before: Loop, e: Event)
      requires recovery.Valid()
      requires before == Runs.Replay(PromptStep, Origin(), trace)
      requires View() == PromptStep(before, e)
      modifies this`trace
      ensures Valid() && trace == old(trace) + [e]
    {
      hide Runs.Replay, DecideRecovery;
      Runs.Extend(PromptStep, Origin(), trace, e);
      trace := trace + [e];
    }

    /** `mark_recovery_pending` on behalf of creation `k`. */
    method Pend(ghost k: nat, id: nat) returns (r: Result<()>)
      requires Valid() && k < |creations| && creations[k] == Creation(id, Decided) && id < |recovery.incidents|
      modifies this`creations, this`trace, recovery
      ensures Valid() && old(trace) <= trace
      ensures r.Ok? <==> RecoveryStore.Pendable(old(recovery.incidents[id]))
      ensures recovery.View() == Marked(old(View()), id)
      ensures r.Ok? ==> creations == old(creations)[k := Creation(id, Pended)]
      ensures id < |old(recovery.incidents)| ==> SameFailures(old(recovery.incidents), recovery.incidents, id)
    {
      hide Runs.Replay, DecideRecovery;
      ghost var before := View();
      r := recovery.MarkRecoveryPending(id);
      creations := creations[k := Creation(id, if r.Ok? then Pended else Finished)];
      Log(before, RecoveryLoop.Pend(k));
    }

    /** `can_recover`, and the escalation of an exhausted budget when somebody can be notified. */
    method Check(ghost k: nat, id: nat) returns (allowed: bool)
      requires Valid() && k < |creations| && creations[k] == Creation(id, Pended) && id < |recovery.incidents|
      modifies this`creations, this`trace, recovery
      ensures Valid() && old(trace) <= trace
      ensures allowed <==> RecoveryStore.CanRecover(old(recovery.View()), id) == RecoveryStore.Allowed
      ensures allowed ==> recovery.View() == old(recovery.View()) && creations == old(creations)[k := Creation(id, Permitted(recovery.now))]
      ensures recovery.attempts == old(recovery.attempts) && recovery.now == old(recovery.now)
      ensures id < |old(recovery.incidents)| ==> SameFailures(old(recovery.incidents), recovery.incidents, id)
      ensures var s := old(recovery.View());
              var pending := s.incidents[id].activeKey.Some? && s.incidents[id].state == RecoveryStore.RecoveryPending;
              && (allowed <==> pending && !RecoveryStore.Exhausted(s, id) && !RecoveryStore.CoolingDown(s, id))
              && (pending && RecoveryStore.Exhausted(s, id) && notifications ==>
                    id < |recovery.incidents| && ClosedForBudget(recovery.incidents[id]))
              && (!(pending && RecoveryStore.Exhausted(s, id) && notifications) ==> recovery.View() == s)
    {
      hide Runs.Replay, DecideRecovery;
      recovery.Sound();
      RecoveryStore.CanRecoverMeans(recovery.View(), id);
      ghost var before := View();
      var allowance := recovery.CanRecover(id);
      allowed := allowance.value == RecoveryStore.Allowed;
      creations := creations[k := Creation(id, if allowed then Permitted(recovery.now) else Finished)];
      if allowance.value == RecoveryStore.BudgetExhausted && notifications {
        var escalated := recovery.Escalate(id, "budget_exhausted");
      }
      Log(before, RecoveryLoop.Check(k, notifications));
    }

    /** `create_mission` and `create_plan`: one open mission with its single recovery step. */
    method Create(ghost k: nat, id: nat) returns (mission: nat)
      requires Valid() && k < |creations| && creations[k] == Creation(id, Permitted(recovery.now))
      modifies this`missions, this`creations, this`trace
      ensures Valid() && old(trace) <= trace
      ensures mission == |old(missions)| && missions == old(missions) + [Mission(id, recovery.now, recovery.now, Open)]
      ensures creations == old(creations)[k := Creation(id, Created(mission))]
    {
      hide Runs.Replay, DecideRecovery;
      ghost var before := View();
      mission := |missions|;
      missions := missions + [Mission(id, recovery.now, recovery.now, Open)];
      creations := creations[k := Creation(id, Created(mission))];
      Log(before, RecoveryLoop.Create(k));
    }

    method Attach(ghost k: nat, id: nat, mission: nat) returns (r: Result<()>)
      requires Valid() && k < |creations| && creations[k] == Creation(id, Created(mission)) && id < |recovery.incidents|
      requires RecoveryStore.Attachable(recovery.incidents[id])
      modifies this`creations, this`trace, recovery
      ensures Valid() && old(trace) <= trace
      ensures r.Ok? && id < |recovery.incidents| && recovery.incidents[id].missionId == Some(mission)
      ensures recovery.attempts == old(recovery.attempts) && recovery.now == old(recovery.now)
      ensures id < |old(recovery.incidents)| ==> SameFailures(old(recovery.incidents), recovery.incidents, id)
    {
      hide Runs.Replay, DecideRecovery;
      ghost var before := View();
      r := recovery.AttachMission(id, mission);
      creations := creations[k := Creation(id, Finished)];
      Log(before, RecoveryLoop.Attach(k));
    }

    /** Everything after the decision: pending, permission, mission, attachment. */
    method Proceed(ghost k: nat, id: nat) returns (r: Result<Option<nat>>)
      requires Valid() && k < |creations| && creations[k] == Creation(id, Decided)
      requires id < |recovery.incidents| && recovery.incidents[id].missionId.None?
      modifies this`missions, this`creations, this`trace, recovery
      ensures Valid() && old(trace) <= trace
      ensures (r.Ok? && r.value.Some?) <==>
              && RecoveryStore.Pendable(old(recovery.incidents[id]))
              && RecoveryStore.CanRecover(Marked(old(View()), id), id) == RecoveryStore.Allowed
      ensures r.Ok? && r.value.Some? ==>
                && r.value.value == |old(missions)|
                && missions == old(missions) + [Mission(id, recovery.now, recovery.now, Open)]
                && id < |recovery.incidents| && recovery.incidents[id].missionId == Some(|old(missions)|)
      ensures !(r.Ok? && r.value.Some?) ==> missions == old(missions)
      ensures recovery.attempts == old(recovery.attempts) && recovery.now == old(recovery.now)
      ensures id < |old(recovery.incidents)| ==> SameFailures(old(recovery.incidents), recovery.incidents, id)
      ensures var s := old(recovery.View());
              Waiting(s.incidents[id]) ==>
                && (RecoveryStore.Exhausted(s, id) ==>
                      && r == Ok(None) && id < |recovery.incidents|
                      && (if notifications then ClosedForBudget(recovery.incidents[id])
                          else recovery.incidents[id].activeKey.Some? && recovery.incidents[id].state == RecoveryStore.RecoveryPending))
                && (!RecoveryStore.Exhausted(s, id) && RecoveryStore.CoolingDown(s, id) ==>
                      && r == Ok(None) && id < |recovery.incidents|
                      && recovery.incidents[id].activeKey.Some? && recovery.incidents[id].state == RecoveryStore.RecoveryPending)
                && (!RecoveryStore.Exhausted(s, id) && !RecoveryStore.CoolingDown(s, id) ==> r.Ok? && r.value.Some?)
      ensures r.Err? <==> !Waiting(old(recovery.incidents)[id])
      ensures r.Err? ==> recovery.View() == old(recovery.View())
    {
      hide Runs.Replay, DecideRecovery;
      var pending := Pend(k, id);
      if pending.Err? {
        return Err(pending.error);
      }
      var allowed := Check(k, id);
      if !allowed {
        return Ok(None);
      }
      var mission := Create(k, id);
      var attached := Attach(k, id, mission);
      r := Ok(Some(mission));
    }

    /**
     Creates a mission exactly when the policy chooses recovery, the incident can still become pending and
     the budget and cooldown allow it; the mission is then attached to the incident.
     */
    method CreateRecoveryMission(id: nat, readiness: Readiness, service: ServiceState) returns (r: Result<Option<nat>>)
      requires Valid()
      modifies this`missions, this`creations, this`trace, recovery
      ensures Valid() && old(trace) <= trace
      ensures (r.Ok? && r.value.Some?) <==>
              && Chosen(old(View()), id, service, readiness, observeOnly)
              && RecoveryStore.Pendable(old(recovery.incidents[id]))
              && RecoveryStore.CanRecover(Marked(old(View()), id), id) == RecoveryStore.Allowed
      ensures r.Ok? && r.value.Some? ==>
                && r.value.value == |old(missions)|
                && missions == old(missions) + [Mission(id, recovery.now, recovery.now, Open)]
                && id < |recovery.incidents| && recovery.incidents[id].missionId == Some(|old(missions)|)
      ensures !(r.Ok? && r.value.Some?) ==> missions == old(missions)
      ensures recovery.attempts == old(recovery.attempts) && recovery.now == old(recovery.now)
      ensures id < |old(recovery.incidents)| ==> SameFailures(old(recovery.incidents), recovery.incidents, id)
      ensures var s := old(recovery.View());
              Chosen(old(View()), id, service, readiness, observeOnly) && Waiting(s.incidents[id]) ==>
                && (RecoveryStore.Exhausted(s, id) ==>
                      && r == Ok(None) && id < |recovery.incidents|
                      && (if notifications then ClosedForBudget(recovery.incidents[id])
                          else recovery.incidents[id].activeKey.Some? && recovery.incidents[id].state == RecoveryStore.RecoveryPending))
                && (!RecoveryStore.Exhausted(s, id) && RecoveryStore.CoolingDown(s, id) ==>
                      && r == Ok(None) && id < |recovery.incidents|
                      && recovery.incidents[id].activeKey.Some? && recovery.incidents[id].state == RecoveryStore.RecoveryPending)
                && (!RecoveryStore.Exhausted(s, id) && !RecoveryStore.CoolingDown(s, id) ==> r.Ok? && r.value.Some?)
      ensures !(Chosen(old(View()), id, service, readiness, observeOnly) && Waiting(old(recovery.incidents)[id])) ==>
                !(r.Ok? && r.value.Some?) && recovery.View() == old(recovery.View())
      ensures r.Err? <==>
              || id >= |old(recovery.incidents)|
              || (Chosen(old(View()), id, service, readiness, observeOnly) && !Waiting(old(recovery.incidents)[id]))
    {
      hide Runs.Replay, DecideRecovery;
      var got := recovery.GetIncident(id);
      if got.Err? {
        return Err(got.error);
      }
      var incident := got.value;
      if incident.missionId.Some? {
        return Ok(None);
      }
      var decision := DecideRecovery(Some(incident.component), service, incident.consecutiveFailures, failureThreshold, readiness);
      if decision.action != Recover || observeOnly {
        return Ok(None);
      }
      ghost var k := |creations|;
      ghost var before := View();
      creations := creations + [Creation(id, Decided)];
      Log(before, Decide(id, service, readiness, observeOnly));
      r := Proceed(k, id);
    }

    /** Closes the incident exactly when the policy says escalate. */
    method HandlePolicyEscalation(id: nat, readiness: Readiness, service: ServiceState) returns (r: Result<bool>)
      requires Valid()
      modifies this`trace, recovery
      ensures Valid() && old(trace) <= trace
      ensures r.Err? <==> id >= |old(recovery.incidents)|
      ensures r.Ok? ==>
                (r.value <==> DecideRecovery(Some(old(recovery.incidents[id].component)), service,
                                             old(recovery.incidents[id].consecutiveFailures), failureThreshold,
                                             readiness).action == RecoveryPolicy.Escalate)
      ensures r.Ok? && r.value ==> id < |recovery.incidents| && recovery.incidents[id].state == RecoveryStore.Escalated
      ensures r != Ok(true) ==> recovery.incidents == old(recovery.incidents)
      ensures recovery.attempts == old(recovery.attempts) && recovery.now == old(recovery.now)
      ensures |recovery.incidents| == |old(recovery.incidents)|
      ensures id < |old(recovery.incidents)| ==> SameFailures(old(recovery.incidents), recovery.incidents, id)
    {
      hide Runs.Replay, DecideRecovery;
      var got := recovery.GetIncident(id);
      if got.Err? {
        return Err(got.error);
      }
      var incident := got.value;
      var decision := DecideRecovery(Some(incident.component), service, incident.consecutiveFailures, failureThreshold, readiness);
      if decision.action != RecoveryPolicy.Escalate {
        return Ok(false);
      }
      ghost var before := View();
      var escalated := recovery.Escalate(id, ReasonText(decision.reason));
      Log(before, Call(RecoveryStore.Escalate(id, ReasonText(decision.reason))));
      r := Ok(true);
    }

    /** `incident_for_mission`, the first transaction of handling a result. */
    method Find(mission: nat, outcome: Outcome) returns (found: Option<nat>)
      requires Valid() && mission < |missions| && missions[mission].phase == Open
      modifies this`missions, this`trace
      ensures Valid() && old(trace) <= trace
      ensures found == RecoveryStore.IncidentForMission(recovery.incidents, mission)
      ensures found.Some? ==>
                && mission < |missions| && missions[mission] == Mission(found.value, missions[mission].checkedAt,
                                                                        missions[mission].createdAt, Found(outcome))
    {
      hide Runs.Replay, DecideRecovery;
      Sound();
      ghost var before := View();
      found := recovery.FindForMission(mission);
      if found.Some? {
        assert AttachedSound(before, found.value);
        missions := missions[mission := missions[mission].(phase := Found(outcome))];
      } else if outcome != Blocked && outcome != WaitingApproval {
        missions := missions[mission := missions[mission].(phase := Handled)];
      }
      Log(before, RecoveryLoop.Find(mission, outcome));
    }

    /** The write that records a found outcome: an attempt, or an escalation when nothing was attempted. */
    method Record(mission: nat, id: nat, outcome: Outcome)
      requires Valid() && mission < |missions| && missions[mission].phase == Found(outcome) && missions[mission].incident == id
      requires id < |recovery.incidents| && recovery.incidents[id].activeKey.Some?
      modifies this`missions, this`trace, recovery
      ensures Valid() && old(trace) <= trace
      ensures |recovery.incidents| == |old(recovery.incidents)| && recovery.now == old(recovery.now)
      ensures outcome.Blocked? || outcome.WaitingApproval? ==>
                recovery.attempts == old(recovery.attempts) && recovery.incidents[id].state == RecoveryStore.Escalated
      ensures !(outcome.Blocked? || outcome.WaitingApproval?) ==>
                && recovery.incidents[id].activeKey.Some?
                && recovery.attempts == old(recovery.attempts)
                   + [RecoveryStore.Attempt(id, old(recovery.incidents[id].component), Some(mission), recovery.now,
                                            outcome.Simulated?, OutcomeText(outcome))]
    {
      hide Runs.Replay, DecideRecovery;
      ghost var before := View();
      missions := missions[mission := missions[mission].(phase := Handled)];
      if outcome == Blocked || outcome == WaitingApproval {
        var escalated := recovery.Escalate(id, "authorization_missing");
      } else {
        var recorded := recovery.RecordAttempt(id, Some(mission), outcome == Simulated, OutcomeText(outcome));
      }
      Log(before, RecoveryLoop.Record(mission));
    }

    method ObserveFailure(component: Component) returns (id: nat)
      requires Valid() && !component.Unlisted?
      modifies this`trace, recovery
      ensures Valid() && old(trace) <= trace
      ensures id < |recovery.incidents| && recovery.incidents[id].activeKey == Some(component)
      ensures recovery.attempts == old(recovery.attempts) && recovery.now == old(recovery.now)
      ensures FailureCounted(old(recovery.View()), recovery.incidents, component, id)
      ensures recovery.View() == RecoveryStore.Apply(old(recovery.View()), RecoveryStore.ObserveFailure(component))
    {
      hide Runs.Replay, DecideRecovery;
      recovery.Sound();
      ObservedIsCounted(recovery.View(), component);
      ghost var before := View();
      var observed := recovery.ObserveFailure(component);
      assert View() == After(before, RecoveryStore.ObserveFailure(component));
      Log(before, Call(RecoveryStore.ObserveFailure(component)));
      id := observed.value;
    }

    method CaptureDiagnostics(id: nat) returns (r: Result<()>)
      requires Valid()
      modifies this`trace, recovery
      ensures Valid() && old(trace) <= trace
      ensures r.Ok? <==> id < |old(recovery.incidents)| && old(recovery.incidents[id].activeKey).Some?
      ensures id < |old(recovery.incidents)| == |recovery.incidents| ==>
                && recovery.incidents[id].missionId == old(recovery.incidents)[id].missionId
                && recovery.incidents[id].activeKey == old(recovery.incidents)[id].activeKey
                && (Waiting(recovery.incidents[id]) <==> Waiting(old(recovery.incidents)[id]))
      ensures recovery.attempts == old(recovery.attempts) && recovery.now == old(recovery.now)
      ensures id < |old(recovery.incidents)| ==> SameFailures(old(recovery.incidents), recovery.incidents, id)
    {
      hide Runs.Replay, DecideRecovery;
      ghost var before := View();
      r := recovery.UpdateDiagnostics(id);
      Log(before, Call(RecoveryStore.UpdateDiagnostics(id)));
    }

    method ResolveIfHealthy(component: Component)
      requires Valid() && !component.Unlisted?
      modifies this`trace, recovery
      ensures Valid() && old(trace) <= trace
      ensures RecoveryStore.ActiveIncident(recovery.incidents, component).None?
      ensures recovery.attempts == old(recovery.attempts) && recovery.now == old(recovery.now)
      ensures var active := RecoveryStore.ActiveIncident(old(recovery.incidents), component);
              if active.None? then recovery.incidents == old(recovery.incidents)
              else OnlyRow(old(recovery.incidents), recovery.incidents, active.value)
                   && recovery.incidents[active.value].state == RecoveryStore.Resolved
    {
      hide Runs.Replay, DecideRecovery;
      Sound();
      ghost var before := View();
      var closed := recovery.ResolveIfHealthy(component);
      Log(before, Call(RecoveryStore.ResolveIfHealthy(component)));
    }

    /** The transition that follows a recorded attempt. */
    method Settle(id: nat, outcome: Outcome) returns (r: Result<()>)
      requires Valid() && id < |recovery.incidents| && recovery.incidents[id].activeKey.Some?
      modifies this`trace, recovery
      ensures Valid() && old(trace) <= trace && r.Ok?
      ensures |recovery.incidents| == |old(recovery.incidents)|
      ensures recovery.incidents[id].state == if outcome == Failed then RecoveryStore.Escalated else RecoveryStore.Verifying
      ensures recovery.attempts == old(recovery.attempts) && recovery.now == old(recovery.now)
    {
      hide Runs.Replay, DecideRecovery;
      ghost var before := View();
      if outcome == Failed {
        r := recovery.Escalate(id, "recovery_attempt_failed");
        Log(before, Call(RecoveryStore.Escalate(id, "recovery_attempt_failed")));
      } else {
        r := recovery.MarkVerifying(id);
        Log(before, Call(RecoveryStore.MarkVerifying(id)));
      }
    }

    /**
     Handles the result of an executed mission step: the lookup, the record and the follow-up transition. An
     attempt is recorded exactly for a simulated, executed or failed step of a mission whose incident is
     still active, always on that incident, and real unless simulated.
     */
    method HandleExecutionResult(mission: nat, outcome: Outcome) returns (r: Result<()>)
      requires Valid() && mission < |missions| && missions[mission].phase == Open
      modifies this`missions, this`trace, recovery
      ensures Valid() && old(trace) <= trace && r.Ok?
      ensures var found := RecoveryStore.IncidentForMission(old(recovery.incidents), mission);
              && (found.None? ==> recovery.View() == old(recovery.View()))
              && (found.Some? ==>
                    && |recovery.incidents| == |old(recovery.incidents)|
                    && recovery.incidents[found.value].state ==
                       (if outcome.Executed? || outcome.Simulated? then RecoveryStore.Verifying else RecoveryStore.Escalated)
                    && recovery.attempts == old(recovery.attempts)
                       + (if outcome.Blocked? || outcome.WaitingApproval? then []
                          else [RecoveryStore.Attempt(found.value, old(recovery.incidents)[found.value].component,
                                                      Some(mission), recovery.now, outcome.Simulated?,
                                                      OutcomeText(outcome))]))
      ensures recovery.now == old(recovery.now)
    {
      hide Runs.Replay, DecideRecovery;
      var found := Find(mission, outcome);
      if found.None? {
        return Ok(());
      }
      Record(mission, found.value, outcome);
      if outcome == Blocked || outcome == WaitingApproval {
        return Ok(());
      }
      r := Settle(found.value, outcome);
    }

    /** Resolves a verified incident, and escalates one that is still unhealthy. */
    method VerifyRecovery(id: nat, readiness: Readiness, service: ServiceState) returns (r: Result<bool>)
      requires Valid()
      modifies this`trace, recovery
      ensures Valid() && old(trace) <= trace
      ensures r.Err? <==> id >= |old(recovery.incidents)|
      ensures r.Ok? ==>
                && (r.value <==> VerificationHealthy(old(recovery.incidents[id].component), readiness, service))
                && id < |recovery.incidents|
                && recovery.incidents[id].state == (if r.value then RecoveryStore.Resolved else RecoveryStore.Escalated)
      ensures recovery.attempts == old(recovery.attempts) && recovery.now == old(recovery.now)
      ensures r.Ok? ==> OnlyRow(old(recovery.incidents), recovery.incidents, id)
    {
      hide Runs.Replay, DecideRecovery;
      var got := recovery.GetIncident(id);
      if got.Err? {
        return Err(got.error);
      }
      ghost var before := View();
      if VerificationHealthy(got.value.component, readiness, service) {
        var resolved := recovery.Resolve(id);
        Log(before, Call(RecoveryStore.Resolve(id)));
        r := Ok(true);
      } else {
        var escalated := recovery.Escalate(id, "verification_failed");
        Log(before, Call(RecoveryStore.Escalate(id, "verification_failed")));
        r := Ok(false);
      }
    }
  }

  // ---------- one cycle over the components ----------

  type Status = Option<ServiceState>

  /** What happens to a component is decided by its active incident and what was observed of it. */
  datatype Branch = Verify | Heal | Fail | Skip

  function BranchOf(incidents: Incidents, c: Component, readiness: Readiness, status: Status): Branch {
    var active := RecoveryStore.ActiveIncident(incidents, c);
    if active.Some? && incidents[active.value].state == RecoveryStore.Verifying && status.Some? then Verify
    else if ComponentHealthy(c, readiness, status) then Heal
    else if ComponentFailed(c, readiness, status) then Fail
    else Skip
  }

  /** Only incidents of component d were changed or added. */
  ghost predicate Confined(was: Incidents, becomes: Incidents, d: Component) {
    && |was| <= |becomes|
    && (forall i :: 0 <= i < |was| ==> becomes[i].component == was[i].component)
    && (forall i :: 0 <= i < |was| && was[i].component != d ==> becomes[i] == was[i])
    && (forall i :: |was| <= i < |becomes| ==> becomes[i].component == d)
  }

  /** The incidents of component c are as they were. */
  ghost predicate Same(was: Incidents, becomes: Incidents, c: Component) {
    && |was| <= |becomes|
    && (forall i :: 0 <= i < |was| ==> becomes[i].component == was[i].component)
    && (forall i :: 0 <= i < |was| && was[i].component == c ==> becomes[i] == was[i])
    && (forall i :: |was| <= i < |becomes| ==> becomes[i].component != c)
  }

  ghost predicate KeysSound(incidents: Incidents) {
    forall i :: 0 <= i < |incidents| ==> RecoveryStore.KeySound(incidents[i])
  }

  /** Whether the incident verified by the cycle has recovered decides how it is closed. */
  function Verdict(c: Component, readiness: Readiness, status: Status): RecoveryStore.IncidentState {
    if VerificationHealthy(c, readiness, State(status)) then RecoveryStore.Resolved else RecoveryStore.Escalated
  }

  /** What the cycle made of component c, seen from the tables before it. */
  ghost predicate Treated(s: RecoveryStore.Store, becomes: Incidents, c: Component, readiness: Readiness, status: Status) {
    && |s.incidents| <= |becomes|
    && var active := RecoveryStore.ActiveIncident(s.incidents, c);
       match BranchOf(s.incidents, c, readiness, status)
       case Verify => becomes[active.value].state == Verdict(c, readiness, status)
       case Heal =>
         && (active.Some? ==> becomes[active.value].state == RecoveryStore.Resolved)
         && (forall i :: 0 <= i < |becomes| ==> becomes[i].activeKey != Some(c))
       case Fail =>
         if active.Some?
         then becomes[active.value].consecutiveFailures
              == s.incidents[active.value].consecutiveFailures
                 + (if s.now - s.incidents[active.value].lastObservedAt < s.cfg.observation then 0 else 1)
         else exists i :: |s.incidents| <= i < |becomes| && becomes[i].component == c && becomes[i].consecutiveFailures == 1
       case Skip => Same(s.incidents, becomes, c)
  }

  lemma SameActive(was: Incidents, becomes: Incidents, c: Component)
    requires Same(was, becomes, c) && KeysSound(was) && KeysSound(becomes)
    ensures RecoveryStore.ActiveIncident(becomes, c) == RecoveryStore.ActiveIncident(was, c)
  {
    hide RecoveryStore.ActiveIncident;
    var a, b := RecoveryStore.ActiveIncident(was, c), RecoveryStore.ActiveIncident(becomes, c);
    if a.Some? {
      assert RecoveryStore.KeySound(was[a.value]);
    }
    if b.Some? {
      assert RecoveryStore.KeySound(becomes[b.value]);
    }
  }

  /** Other components do not disturb an outcome that has been reached. */
  lemma TreatedStays(s: RecoveryStore.Store, now: Incidents, next: Incidents, c: Component, d: Component, readiness: Readiness, status: Status)
    requires Treated(s, now, c, readiness, status) && Confined(now, next, d) && c != d
    requires KeysSound(s.incidents) && KeysSound(next)
    requires forall i :: 0 <= i < |s.incidents| ==> now[i].component == s.incidents[i].component
    ensures Treated(s, next, c, readiness, status)
  {
    hide RecoveryStore.ActiveIncident, RecoveryStore.Observed, ComponentHealthy, ComponentFailed;
    var active := RecoveryStore.ActiveIncident(s.incidents, c);
    if active.Some? {
      assert RecoveryStore.KeySound(s.incidents[active.value]);
    }
    if BranchOf(s.incidents, c, readiness, status) == Heal {
      forall i | 0 <= i < |next|
        ensures next[i].activeKey != Some(c)
      {
        assert RecoveryStore.KeySound(next[i]);
      }
    }
  }

  lemma VerifyTreats(s: RecoveryStore.Store, becomes: Incidents, c: Component, readiness: Readiness, status: Status)
    requires RecoveryStore.Inv(s) && BranchOf(s.incidents, c, readiness, status) == Verify
    requires var active := RecoveryStore.ActiveIncident(s.incidents, c);
             OnlyRow(s.incidents, becomes, active.value) && becomes[active.value].state == Verdict(c, readiness, status)
    ensures Confined(s.incidents, becomes, c) && Treated(s, becomes, c, readiness, status)
  {
    assert RecoveryStore.KeySound(s.incidents[RecoveryStore.ActiveIncident(s.incidents, c).value]);
  }

  lemma HealTreats(s: RecoveryStore.Store, becomes: Incidents, c: Component, readiness: Readiness, status: Status)
    requires RecoveryStore.Inv(s) && BranchOf(s.incidents, c, readiness, status) == Heal
    requires RecoveryStore.ActiveIncident(becomes, c).None?
    requires var active := RecoveryStore.ActiveIncident(s.incidents, c);
             if active.None? then becomes == s.incidents
             else OnlyRow(s.incidents, becomes, active.value) && becomes[active.value].state == RecoveryStore.Resolved
    ensures Confined(s.incidents, becomes, c) && Treated(s, becomes, c, readiness, status)
  {
    var active := RecoveryStore.ActiveIncident(s.incidents, c);
    if active.Some? {
      assert RecoveryStore.KeySound(s.incidents[active.value]);
    }
  }

  lemma FailTreats(s: RecoveryStore.Store, becomes: Incidents, c: Component, readiness: Readiness, status: Status, id: nat)
    requires RecoveryStore.Inv(s) && BranchOf(s.incidents, c, readiness, status) == Fail
    requires FailureCounted(s, becomes, c, id)
    ensures Confined(s.incidents, becomes, c) && Treated(s, becomes, c, readiness, status)
  {
    hide RecoveryStore.Observed;
    var active := RecoveryStore.ActiveIncident(s.incidents, c);
    if active.Some? {
      assert RecoveryStore.KeySound(s.incidents[id]);
    } else {
      forall i | 0 <= i < |s.incidents|
        ensures becomes[i] == s.incidents[i]
      {
        assert becomes[..id][i] == becomes[i];
      }
    }
  }

  lemma SkipTreats(s: RecoveryStore.Store, c: Component, readiness: Readiness, status: Status)
    requires BranchOf(s.incidents, c, readiness, status) == Skip
    ensures Confined(s.incidents, s.incidents, c) && Treated(s, s.incidents, c, readiness, status)
  {
  }

  lemma SameStays(was: Incidents, now: Incidents, next: Incidents, c: Component, d: Component)
    requires Same(was, now, c) && Confined(now, next, d) && c != d
    ensures Same(was, next, c)
  {
  }

  datatype Summary = Summary(detected: bool, resolved: bool, worked: bool)

  /** What treating one component adds to the summary. */
  function FlagsOf(incidents: Incidents, c: Component, readiness: Readiness, status: Status): Summary {
    match BranchOf(incidents, c, readiness, status)
    case Verify => Summary(false, VerificationHealthy(c, readiness, State(status)), true)
    case Heal => Summary(false, RecoveryStore.ActiveIncident(incidents, c).Some?, RecoveryStore.ActiveIncident(incidents, c).Some?)
    case Fail => Summary(true, false, true)
    case Skip => Summary(false, false, false)
  }

  function Joined(a: Summary, b: Summary): Summary {
    Summary(a.detected || b.detected, a.resolved || b.resolved, a.worked || b.worked)
  }

  function StatusOf(statuses: map<Component, ServiceState>, c: Component): Status {
    if c in statuses then Some(statuses[c]) else None
  }

  /** The summary of the first k components, told from the tables before the cycle. */
  function SummaryOf(incidents: Incidents, readiness: Readiness, statuses: map<Component, ServiceState>, k: nat): Summary
    requires k <= |COMPONENTS|
  {
    if k == 0 then Summary(false, false, false)
    else Joined(SummaryOf(incidents, readiness, statuses, k - 1),
                FlagsOf(incidents, COMPONENTS[k - 1], readiness, StatusOf(statuses, COMPONENTS[k - 1])))
  }

  /**
   The branch of a component in terms of what was observed of it, and the verdict on a verifying incident: recovered
   exactly if the service runs, reports ready and, for the database, reports the database healthy.
   */
  lemma BranchMeans(incidents: Incidents, c: Component, readiness: Readiness, statuses: map<Component, ServiceState>)
    ensures var active := RecoveryStore.ActiveIncident(incidents, c);
            var status := StatusOf(statuses, c);
            var verifying := active.Some? && incidents[active.value].state == RecoveryStore.Verifying && c in statuses;
            var healthy := c in statuses && statuses[c] == RecoveryPolicy.Running
                           && (c == App ==> readiness.ok == Yes) && (c == Database ==> readiness.database == Yes);
            var down := c in statuses
                        && (statuses[c] == Down || (c == App && readiness.ok != Yes) || (c == Database && readiness.database == No));
            && BranchOf(incidents, c, readiness, status)
               == (if verifying then Verify else if healthy then Heal else if down then Fail else Skip)
            && (c in statuses ==>
                  Verdict(c, readiness, status)
                  == if statuses[c] == RecoveryPolicy.Running && readiness.ok == Yes && (c == Database ==> readiness.database == Yes)
                     then RecoveryStore.Resolved else RecoveryStore.Escalated)
  {
  }

  /** The summary tells whether any of the five components failed, recovered or was worked on. */
  lemma {:induction false} SummaryMeans(incidents: Incidents, readiness: Readiness, statuses: map<Component, ServiceState>, k: nat)
    requires k <= |COMPONENTS|
    ensures var summary := SummaryOf(incidents, readiness, statuses, k);
            && (summary.detected <==>
                  exists j :: 0 <= j < k && BranchOf(incidents, COMPONENTS[j], readiness, StatusOf(statuses, COMPONENTS[j])) == Fail)
            && (summary.resolved <==>
                  exists j :: 0 <= j < k && Recovered(incidents, COMPONENTS[j], readiness, StatusOf(statuses, COMPONENTS[j])))
            && (summary.worked <==>
                  || summary.detected || summary.resolved
                  || exists j :: 0 <= j < k && BranchOf(incidents, COMPONENTS[j], readiness, StatusOf(statuses, COMPONENTS[j])) == Verify)
  {
    hide StatusOf, ComponentHealthy, ComponentFailed, RecoveryStore.ActiveIncident, COMPONENTS;
    if k > 0 {
      SummaryMeans(incidents, readiness, statuses, k - 1);
    }
  }

  /** An incident of the component is closed as resolved: verified, or found healthy. */
  predicate Recovered(incidents: Incidents, c: Component, readiness: Readiness, status: Status) {
    && RecoveryStore.ActiveIncident(incidents, c).Some?
    && match BranchOf(incidents, c, readiness, status)
       case Verify => Verdict(c, readiness, status) == RecoveryStore.Resolved
       case Heal => true
       case _ => false
  }

  lemma BranchStays(was: Incidents, becomes: Incidents, c: Component, readiness: Readiness, status: Status)
    requires Same(was, becomes, c) && KeysSound(was) && KeysSound(becomes)
    ensures BranchOf(becomes, c, readiness, status) == BranchOf(was, c, readiness, status)
    ensures FlagsOf(becomes, c, readiness, status) == FlagsOf(was, c, readiness, status)
  {
    hide RecoveryStore.ActiveIncident, ComponentHealthy, ComponentFailed;
    SameActive(was, becomes, c);
    var active := RecoveryStore.ActiveIncident(was, c);
    if active.Some? {
      assert RecoveryStore.KeySound(was[active.value]);
    }
  }

  /** A component untouched so far is treated as it would have been at the start of the cycle. */
  lemma TreatedFromStart(s: RecoveryStore.Store, mid: RecoveryStore.Store, next: Incidents, c: Component, readiness: Readiness, status: Status)
    requires Same(s.incidents, mid.incidents, c) && KeysSound(s.incidents) && KeysSound(mid.incidents)
    requires mid.now == s.now && mid.cfg == s.cfg
    requires Treated(mid, next, c, readiness, status) && Confined(mid.incidents, next, c)
    ensures Treated(s, next, c, readiness, status)
  {
    hide RecoveryStore.ActiveIncident, ComponentHealthy, ComponentFailed;
    SameActive(s.incidents, mid.incidents, c);
    BranchStays(s.incidents, mid.incidents, c, readiness, status);
    var active := RecoveryStore.ActiveIncident(s.incidents, c);
    if active.Some? {
      assert RecoveryStore.KeySound(s.incidents[active.value]);
    }
  }

  /** The state of a cycle after its first k components. */
  ghost predicate CycleAt(s: RecoveryStore.Store, now: Incidents, readiness: Readiness, statuses: map<Component, ServiceState>, k: nat)
    requires k <= |COMPONENTS|
  {
    && |s.incidents| <= |now| && (forall i :: 0 <= i < |s.incidents| ==> now[i].component == s.incidents[i].component)
    && (forall j :: 0 <= j < k ==> Treated(s, now, COMPONENTS[j], readiness, StatusOf(statuses, COMPONENTS[j])))
    && (forall j :: k <= j < |COMPONENTS| ==> Same(s.incidents, now, COMPONENTS[j]))
  }

  lemma CycleAdvances(s: RecoveryStore.Store, mid: RecoveryStore.Store, next: Incidents, readiness: Readiness,
                      statuses: map<Component, ServiceState>, k: nat)
    requires k < |COMPONENTS| && CycleAt(s, mid.incidents, readiness, statuses, k)
    requires KeysSound(s.incidents) && KeysSound(mid.incidents) && KeysSound(next) && mid.now == s.now && mid.cfg == s.cfg
    requires Confined(mid.incidents, next, COMPONENTS[k])
    requires Treated(mid, next, COMPONENTS[k], readiness, StatusOf(statuses, COMPONENTS[k]))
    ensures CycleAt(s, next, readiness, statuses, k + 1)
  {
    hide Treated, RecoveryStore.ActiveIncident, KeysSound;
    TreatedFromStart(s, mid, next, COMPONENTS[k], readiness, StatusOf(statuses, COMPONENTS[k]));
    forall j | 0 <= j < k
      ensures Treated(s, next, COMPONENTS[j], readiness, StatusOf(statuses, COMPONENTS[j]))
    {
      TreatedStays(s, mid.incidents, next, COMPONENTS[j], COMPONENTS[k], readiness, StatusOf(statuses, COMPONENTS[j]));
    }
    forall j | k < j < |COMPONENTS|
      ensures Same(s.incidents, next, COMPONENTS[j])
    {
      SameStays(s.incidents, mid.incidents, next, COMPONENTS[j], COMPONENTS[k]);
    }
  }

  lemma SoundKeys(s: RecoveryStore.Store)
    requires RecoveryStore.Inv(s)
    ensures KeysSound(s.incidents)
  {
  }

  lemma CycleStarts(s: RecoveryStore.Store, readiness: Readiness, statuses: map<Component, ServiceState>)
    ensures CycleAt(s, s.incidents, readiness, statuses, 0)
  {
  }

  class DripVidRecoveryCycle {
    const recovery: S.RecoveryService
    const observer: RecoveryObserver
    var lastSummary: Option<Summary>

    ghost predicate Valid()
      reads this, observer, recovery
    {
      observer.recovery == recovery && observer.Valid()
    }

    constructor (observer: RecoveryObserver)
      requires observer.Valid()
      ensures Valid() && this.observer == observer && recovery == observer.recovery
    {
      this.observer, this.recovery := observer, observer.recovery;
      lastSummary := None;
    }

    /** One failed component: observe it and, from the threshold on, escalate it or create its mission. */
    method HandleFailure(component: Component, readiness: Readiness, status: Option<ServiceState>) returns (r: Result<()>)
      requires Valid() && !component.Unlisted?
      modifies recovery, observer`missions, observer`creations, observer`trace
      ensures Valid() && old(observer.trace) <= observer.trace
      ensures observer.observeOnly ==> observer.missions == old(observer.missions)
      ensures recovery.attempts == old(recovery.attempts) && recovery.now == old(recovery.now)
      ensures var active := RecoveryStore.ActiveIncident(old(recovery.incidents), component);
              var id := if active.Some? then active.value else |old(recovery.incidents)|;
              && FailureCounted(old(recovery.View()), recovery.incidents, component, id)
              && (recovery.incidents[id].consecutiveFailures < observer.failureThreshold ==>
                    && observer.missions == old(observer.missions)
                    && recovery.View() == RecoveryStore.Apply(old(recovery.View()), RecoveryStore.ObserveFailure(component)))
              && (recovery.incidents[id].consecutiveFailures >= observer.failureThreshold
                  && EscalationDue(recovery.incidents[id], readiness, State(status)) ==>
                    r.Ok? && observer.missions == old(observer.missions) && recovery.incidents[id].state == RecoveryStore.Escalated)
      ensures r.Err? <==> Refused(old(recovery.incidents), component, readiness, State(status))
    {
      hide Runs.Replay, DecideRecovery, RecoveryStore.Apply, RecoveryStore.Observed, PromptStep;
      var id := observer.ObserveFailure(component);
      if recovery.incidents[id].consecutiveFailures < observer.failureThreshold {
        return Ok(());
      }
      r := Respond(id, readiness, State(status));
    }

    /** From the threshold on: diagnostics, then escalation if the policy says so, else a mission if it is allowed. */
    method Respond(id: nat, readiness: Readiness, service: ServiceState) returns (r: Result<()>)
      requires Valid() && id < |recovery.incidents| && recovery.incidents[id].activeKey.Some?
      modifies recovery, observer`missions, observer`creations, observer`trace
      ensures Valid() && old(observer.trace) <= observer.trace
      ensures observer.observeOnly ==> observer.missions == old(observer.missions)
      ensures recovery.attempts == old(recovery.attempts) && recovery.now == old(recovery.now)
      ensures SameFailures(old(recovery.incidents), recovery.incidents, id)
      ensures EscalationDue(old(recovery.incidents)[id], readiness, service) ==>
                r.Ok? && observer.missions == old(observer.missions) && recovery.incidents[id].state == RecoveryStore.Escalated
      ensures r.Err? <==> Stuck(recovery.incidents[id], readiness, service, observer.observeOnly)
    {
      hide Runs.Replay, DecideRecovery;
      var captured := observer.CaptureDiagnostics(id);
      if captured.Err? {
        return captured;
      }
      var escalated := observer.HandlePolicyEscalation(id, readiness, service);
      if escalated.value {
        return Ok(());
      }
      var created := observer.CreateRecoveryMission(id, readiness, service);
      r := if created.Ok? then Ok(()) else Err(created.error);
    }

    /** The policy demands a mission for an active incident without one, but its state is past waiting for one. */
    predicate Stuck(incident: RecoveryStore.Incident, readiness: Readiness, service: ServiceState, observeOnly: bool) {
      && incident.activeKey.Some? && incident.missionId.None? && !Waiting(incident) && !observeOnly
      && DecideRecovery(Some(incident.component), service, incident.consecutiveFailures, observer.failureThreshold, readiness).action
         == Recover
    }

    /** The failure of the component was counted, is persistent, and its incident is stuck. */
    predicate Refused(was: Incidents, c: Component, readiness: Readiness, service: ServiceState)
      reads recovery, observer`observeOnly
    {
      var active := RecoveryStore.ActiveIncident(was, c);
      var id := if active.Some? then active.value else |was|;
      && id < |recovery.incidents| && recovery.incidents[id].consecutiveFailures >= observer.failureThreshold
      && Stuck(recovery.incidents[id], readiness, service, observer.observeOnly)
    }

    lemma RefusedIsStuck(was: Incidents, c: Component, readiness: Readiness, service: ServiceState)
      requires Refused(was, c, readiness, service)
      ensures exists i :: i in recovery.incidents && Stuck(i, readiness, service, observer.observeOnly)
    {
    }

    predicate EscalationDue(incident: RecoveryStore.Incident, readiness: Readiness, service: ServiceState) {
      DecideRecovery(Some(incident.component), service, incident.consecutiveFailures, observer.failureThreshold, readiness).action
      == RecoveryPolicy.Escalate
    }

    /**
     One observation cycle. Every component ends as its incident and observation demand: a verifying incident is closed
     by the verdict, a healthy component has no active incident, a failed one has its failure counted, any other is left
     alone. No attempt is recorded, observe-only creates no mission, and the budget still holds.
     */
    method RunOnce(readiness: Readiness, statuses: map<Component, ServiceState>, observeOnly: bool) returns (r: Result<bool>)
      requires Valid()
      modifies this, recovery, observer
      ensures Valid() && WithinBudget(observer.View().store)
      ensures old(observer.trace) <= observer.trace
      ensures observer.observeOnly == old(observer.observeOnly)
      ensures observeOnly ==> observer.missions == old(observer.missions)
      ensures recovery.attempts == old(recovery.attempts) && recovery.now == old(recovery.now)
      ensures r.Ok? ==> lastSummary.Some? && lastSummary.value.worked == r.value
      ensures r.Ok? && !StorageCritical(readiness) ==>
                && CycleAt(old(recovery.View()), recovery.incidents, readiness, statuses, |COMPONENTS|)
                && lastSummary == Some(SummaryOf(old(recovery.incidents), readiness, statuses, |COMPONENTS|))
      ensures StorageCritical(readiness) ==>
                && r.Ok? && lastSummary == Some(Summary(true, false, true)) && observer.missions == old(observer.missions)
                && (exists id :: FailureCounted(old(recovery.View()), recovery.incidents, App, id) && EscalatedWhenDue(id))
      ensures r.Err? ==> exists c, i :: i in recovery.incidents && Stuck(i, readiness, State(StatusOf(statuses, c)), observeOnly)
    {
      hide Runs.Replay, CycleAt, SummaryOf, FailureCounted, PromptStep;
      var previous := observer.observeOnly;
      observer.observeOnly := observeOnly;
      r := Observe(readiness, statuses);
      observer.observeOnly := previous;
      observer.Sound();
    }

    /** Treats one component; the flags say whether something was detected, resolved or done. */
    method Treat(component: Component, readiness: Readiness, status: Status) returns (r: Result<Summary>)
      requires Valid() && !component.Unlisted?
      modifies recovery, observer`missions, observer`creations, observer`trace
      ensures Valid() && old(observer.trace) <= observer.trace
      ensures observer.observeOnly ==> observer.missions == old(observer.missions)
      ensures recovery.attempts == old(recovery.attempts) && recovery.now == old(recovery.now)
      ensures Confined(old(recovery.incidents), recovery.incidents, component)
      ensures Treated(old(recovery.View()), recovery.incidents, component, readiness, status)
      ensures r.Err? <==>
              && BranchOf(old(recovery.incidents), component, readiness, status) == Fail
              && Refused(old(recovery.incidents), component, readiness, State(status))
      ensures r.Ok? ==> r.value == FlagsOf(old(recovery.incidents), component, readiness, status)
    {
      hide Runs.Replay, DecideRecovery, RecoveryStore.Apply, RecoveryStore.Observed, RecoveryStore.Inv, PromptStep, ComponentHealthy,
           ComponentFailed, Treated, Confined, OnlyRow, FailureCounted, VerificationHealthy, Refused, EscalationDue,
           RecoveryStore.ActiveIncident;
      recovery.Sound();
      ghost var before := recovery.View();
      var active := recovery.FindActive(component);
      if active.Some? && recovery.incidents[active.value].state == RecoveryStore.Verifying && status.Some? {
        ActiveIsOwn(before, component);
        var verified := observer.VerifyRecovery(active.value, readiness, State(status));
        VerifyTreats(before, recovery.incidents, component, readiness, status);
        return Ok(Summary(false, verified.value, true));
      }
      if ComponentHealthy(component, readiness, status) {
        if active.Some? {
          observer.ResolveIfHealthy(component);
        }
        HealTreats(before, recovery.incidents, component, readiness, status);
        return Ok(Summary(false, active.Some?, active.Some?));
      }
      if !ComponentFailed(component, readiness, status) {
        SkipTreats(before, component, readiness, status);
        return Ok(Summary(false, false, false));
      }
      var handled := HandleFailure(component, readiness, status);
      FailTreats(before, recovery.incidents, component, readiness, status,
                 if active.Some? then active.value else |before.incidents|);
      r := if handled.Err? then Err(handled.error) else Ok(Summary(true, false, true));
    }

    lemma ActiveIsOwn(s: RecoveryStore.Store, c: Component)
      requires RecoveryStore.Inv(s)
      ensures var active := RecoveryStore.ActiveIncident(s.incidents, c);
              active.Some? ==> s.incidents[active.value].component == c
    {
      var active := RecoveryStore.ActiveIncident(s.incidents, c);
      if active.Some? {
        assert RecoveryStore.KeySound(s.incidents[active.value]);
      }
    }

    method Observe(readiness: Readiness, statuses: map<Component, ServiceState>) returns (r: Result<bool>)
      requires Valid()
      modifies this`lastSummary, recovery, observer`missions, observer`creations, observer`trace
      ensures Valid() && old(observer.trace) <= observer.trace
      ensures observer.observeOnly ==> observer.missions == old(observer.missions)
      ensures recovery.attempts == old(recovery.attempts) && recovery.now == old(recovery.now)
      ensures r.Ok? ==> lastSummary.Some? && lastSummary.value.worked == r.value
      ensures r.Err? ==> exists c, i :: i in recovery.incidents && Stuck(i, readiness, State(StatusOf(statuses, c)), observer.observeOnly)
      ensures r.Ok? && !StorageCritical(readiness) ==>
                && CycleAt(old(recovery.View()), recovery.incidents, readiness, statuses, |COMPONENTS|)
                && lastSummary == Some(SummaryOf(old(recovery.incidents), readiness, statuses, |COMPONENTS|))
      ensures StorageCritical(readiness) ==>
                && r.Ok? && lastSummary == Some(Summary(true, false, true)) && observer.missions == old(observer.missions)
                && (exists id :: FailureCounted(old(recovery.View()), recovery.incidents, App, id) && EscalatedWhenDue(id))
    {
      hide Runs.Replay, DecideRecovery, RecoveryStore.Apply, RecoveryStore.Observed, RecoveryStore.Inv, PromptStep, Treated, Confined,
           CycleAt, FlagsOf, OnlyRow, KeysSound, RecoveryStore.ActiveIncident, COMPONENTS, StatusOf;
      if StorageCritical(readiness) {
        StorageFailure(readiness, State(StatusOf(statuses, App)));
        lastSummary := Some(Summary(true, false, true));
        return Ok(true);
      }
      r := ObserveAll(readiness, statuses);
    }

    /** Unusable storage is a failure of the app, which may be escalated but gets no mission. */
    method StorageFailure(readiness: Readiness, service: ServiceState)
      requires Valid()
      modifies recovery, observer`trace
      ensures Valid() && old(observer.trace) <= observer.trace
      ensures recovery.attempts == old(recovery.attempts) && recovery.now == old(recovery.now)
      ensures StorageCritical(readiness) ==>
                exists id :: FailureCounted(old(recovery.View()), recovery.incidents, App, id) && EscalatedWhenDue(id)
    {
      hide Runs.Replay, DecideRecovery, RecoveryStore.Apply, RecoveryStore.Observed, PromptStep;
      var id := observer.ObserveFailure(App);
      if recovery.incidents[id].consecutiveFailures >= observer.failureThreshold {
        var escalated := observer.HandlePolicyEscalation(id, readiness, service);
      }
      assert FailureCounted(old(recovery.View()), recovery.incidents, App, id) && (StorageCritical(readiness) ==> EscalatedWhenDue(id));
    }

    /** The incident is closed as soon as its failures reach the threshold. */
    predicate EscalatedWhenDue(id: nat)
      reads recovery
    {
      && id < |recovery.incidents|
      && (recovery.incidents[id].consecutiveFailures >= observer.failureThreshold ==> recovery.incidents[id].state == RecoveryStore.Escalated)
    }

    /** The loop over the components. */
    method ObserveAll(readiness: Readiness, statuses: map<Component, ServiceState>) returns (r: Result<bool>)
      requires Valid()
      modifies this`lastSummary, recovery, observer`missions, observer`creations, observer`trace
      ensures Valid() && old(observer.trace) <= observer.trace
      ensures observer.observeOnly ==> observer.missions == old(observer.missions)
      ensures recovery.attempts == old(recovery.attempts) && recovery.now == old(recovery.now)
      ensures r.Err? ==> exists c, i :: i in recovery.incidents && Stuck(i, readiness, State(StatusOf(statuses, c)), observer.observeOnly)
      ensures r.Ok? ==>
                && CycleAt(old(recovery.View()), recovery.incidents, readiness, statuses, |COMPONENTS|)
                && lastSummary == Some(SummaryOf(old(recovery.incidents), readiness, statuses, |COMPONENTS|))
                && r.value == lastSummary.value.worked
    {
      hide Runs.Replay, DecideRecovery, RecoveryStore.Apply, RecoveryStore.Observed, RecoveryStore.Inv, PromptStep, Treated, Confined,
           FlagsOf, OnlyRow, KeysSound, RecoveryStore.ActiveIncident, StatusOf;
      ghost var start := recovery.View();
      CycleStarts(start, readiness, statuses);
      recovery.Sound();
      SoundKeys(start);
      var summary := Summary(false, false, false);
      for k := 0 to |COMPONENTS|
        invariant Valid() && old(observer.trace) <= observer.trace
        invariant observer.observeOnly ==> observer.missions == old(observer.missions)
        invariant recovery.attempts == old(recovery.attempts) && recovery.now == old(recovery.now)
        invariant CycleAt(start, recovery.incidents, readiness, statuses, k)
        invariant summary == SummaryOf(start.incidents, readiness, statuses, k)
      {
        var component := COMPONENTS[k];
        var status := StatusOf(statuses, component);
        ghost var mid := recovery.View();
        recovery.Sound();
        SoundKeys(mid);
        var treated := Treat(component, readiness, status);
        if treated.Err? {
          RefusedIsStuck(mid.incidents, component, readiness, State(status));
          return Err(treated.error);
        }
        recovery.Sound();
        SoundKeys(recovery.View());
        BranchStays(start.incidents, mid.incidents, component, readiness, status);
        CycleAdvances(start, mid, recovery.incidents, readiness, statuses, k);
        summary := Joined(summary, treated.value);
      }
      lastSummary := Some(summary);
      r := Ok(summary.worked);
    }
  }
}
