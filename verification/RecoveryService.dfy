/**
 RecoveryService as the source has it: an object over the incident and attempt tables whose methods
 update rows in place (src/ai_hq/recovery/service.py). `history` records the calls; every method is
 proved to do to the tables what RecoveryStore.Apply says.
 */
module RecoveryService {
  import opened Prelude
  import opened RecoveryPolicy
  import RecoveryStore
  import Runs

  type Incident = RecoveryStore.Incident
  type Event = RecoveryStore.Event

  class RecoveryService {
    const cfg: RecoveryStore.Config
    var incidents: seq<Incident>
    var attempts: seq<RecoveryStore.Attempt>
    var now: int
    ghost var history: seq<Event>
    ghost const start: int

    ghost function View(): RecoveryStore.Store
      reads this
    {
      RecoveryStore.Store(cfg, incidents, attempts, now)
    }

    /** The tables hold what the calls made so far, replayed from the empty store, leave in them. */
    ghost predicate Valid()
      reads this
    {
      && cfg.Accepted()
      && View() == Runs.Replay(RecoveryStore.Apply, RecoveryStore.Init(cfg, start), history)
    }

    twostate predicate Did(e: Event)
      reads this
    {
      && history == old(history) + [e]
      && View() == RecoveryStore.Apply(old(View()), e)
    }

    /** At every moment of the object's life the tables satisfy the store invariant. */
    lemma Sound()
      requires Valid()
      ensures RecoveryStore.Inv(View())
    {
      RecoveryStore.RunKeeps(RecoveryStore.Init(cfg, start), history);
    }

    twostate lemma Logged(e: Event)
      requires old(Valid()) && Did(e)
      ensures Valid()
    {
      Runs.Extend(RecoveryStore.Apply, RecoveryStore.Init(cfg, start), old(history), e);
    }

    constructor (cfg: RecoveryStore.Config, now: int)
      requires cfg.failureThreshold >= 2 && cfg.observation >= 1 && cfg.cooldown >= 1 && cfg.budget >= 1 && cfg.window >= cfg.cooldown
      ensures Valid() && this.cfg == cfg && View() == RecoveryStore.Init(cfg, now) && history == []
    {
      this.cfg, this.now, this.start := cfg, now, now;
      incidents, attempts, history := [], [], [];
    }

    /** Time passing between two calls. */
    method Wait(ticks: nat)
      requires Valid()
      modifies this
      ensures Valid() && Did(RecoveryStore.Tick(ticks))
    {
      now := now + ticks;
      history := history + [RecoveryStore.Tick(ticks)];
      Logged(RecoveryStore.Tick(ticks));
    }

    method FindActive(component: Component) returns (found: Option<nat>)
      ensures found == RecoveryStore.ActiveIncident(incidents, component)
    {
      found := None;
      for i := 0 to |incidents|
        invariant found == RecoveryStore.ActiveIncident(incidents[..i], component)
      {
        assert incidents[..i + 1][..i] == incidents[..i];
        if found.None? && incidents[i].activeKey == Some(component) {
          found := Some(i);
        }
      }
      assert incidents[..|incidents|] == incidents;
    }

    method FindForMission(missionId: nat) returns (found: Option<nat>)
      ensures found == RecoveryStore.IncidentForMission(incidents, missionId)
    {
      found := None;
      for i := 0 to |incidents|
        invariant found == RecoveryStore.IncidentForMission(incidents[..i], missionId)
      {
        assert incidents[..i + 1][..i] == incidents[..i];
        if found.None? && incidents[i].missionId == Some(missionId) && incidents[i].activeKey.Some? {
          found := Some(i);
        }
      }
      assert incidents[..|incidents|] == incidents;
    }

    method ActiveIncident(component: Component) returns (r: Result<Option<nat>>)
      ensures r == if component.Unlisted? then Err(ValueError) else Ok(RecoveryStore.ActiveIncident(incidents, component))
    {
      if component.Unlisted? {
        return Err(ValueError);
      }
      var found := FindActive(component);
      r := Ok(found);
    }

    method GetIncident(id: nat) returns (r: Result<Incident>)
      ensures r == if id < |incidents| then Ok(incidents[id]) else Err(KeyError)
    {
      r := if id < |incidents| then Ok(incidents[id]) else Err(KeyError);
    }

    /** Opens an incident on the first failure, and counts a later one only an observation interval apart. */
    method ObserveFailure(component: Component) returns (r: Result<nat>)
      requires Valid()
      modifies this
      ensures Valid() && Did(RecoveryStore.ObserveFailure(component))
      ensures component.Unlisted? <==> r == Err(ValueError)
      ensures r.Ok? <==> !component.Unlisted?
      ensures r.Ok? ==> r.value < |incidents| && incidents[r.value].activeKey == Some(component)
      ensures r.Ok? ==> var active := RecoveryStore.ActiveIncident(old(incidents), component);
                        r.value == if active.Some? then active.value else |old(incidents)|
      ensures attempts == old(attempts) && now == old(now)
      ensures r.Ok? && r.value == |old(incidents)| ==>
                && incidents[..r.value] == old(incidents) && |incidents| == r.value + 1
                && incidents[r.value].state == RecoveryStore.Suspect && incidents[r.value].consecutiveFailures == 1
                && incidents[r.value].firstFailureAt == incidents[r.value].lastFailureAt == incidents[r.value].lastObservedAt == now
      ensures r.Ok? && r.value < |old(incidents)| ==>
                var was := old(incidents)[r.value];
                incidents == if now - was.lastObservedAt < cfg.observation then old(incidents)
                             else old(incidents)[r.value := was.(
                                    consecutiveFailures := was.consecutiveFailures + 1, lastFailureAt := now, lastObservedAt := now,
                                    state := if was.state == RecoveryStore.Suspect && was.consecutiveFailures + 1 >= cfg.failureThreshold
                                             then RecoveryStore.Diagnosing else was.state)]
    {
      ghost var e := RecoveryStore.ObserveFailure(component);
      if component.Unlisted? {
        r := Err(ValueError);
      } else {
        Sound();
        var found := FindActive(component);
        if found.None? {
          var incident := RecoveryStore.Incident(
            Some(component), component, RecoveryStore.Suspect, 1, now, now, now, None, None, None, None);
          incidents := incidents + [incident];
          r := Ok(|incidents| - 1);
        } else {
          var id := found.value;
          r := Ok(id);
          var incident := incidents[id];
          if now - incident.lastObservedAt >= cfg.observation {
            var failures := incident.consecutiveFailures + 1;
            var state := incident.state;
            if state == RecoveryStore.Suspect && failures >= cfg.failureThreshold {
              state := RecoveryStore.Diagnosing;
            }
            incidents := incidents[id := incident.(
              consecutiveFailures := failures, lastFailureAt := now, lastObservedAt := now, state := state)];
          } else {
            assert incidents[id := incident] == incidents;
          }
        }
      }
      history := history + [e];
      Logged(e);
    }

    method ResolveIfHealthy(component: Component) returns (r: Result<Option<nat>>)
      requires Valid()
      modifies this
      ensures Valid() && Did(RecoveryStore.ResolveIfHealthy(component))
      ensures r == if component.Unlisted? then Err(ValueError)
                   else Ok(RecoveryStore.ActiveIncident(old(incidents), component))
      ensures incidents == if r.Err? || r.value.None? then old(incidents)
                           else old(incidents)[r.value.value := old(incidents)[r.value.value].(
                                  state := RecoveryStore.Resolved, activeKey := None, consecutiveFailures := 0,
                                  lastObservedAt := now, resolvedAt := Some(now))]
    {
      ghost var e := RecoveryStore.ResolveIfHealthy(component);
      if component.Unlisted? {
        r := Err(ValueError);
      } else {
        var found := FindActive(component);
        if found.Some? {
          CloseResolved(found.value);
        }
        r := Ok(found);
      }
      history := history + [e];
      Logged(e);
    }

    method CloseResolved(id: nat)
      requires id < |incidents|
      modifies this`incidents
      ensures View() == RecoveryStore.Put(old(View()), id, RecoveryStore.Closed(old(View()), old(incidents[id])))
    {
      incidents := incidents[id := incidents[id].(
        state := RecoveryStore.Resolved, activeKey := None, consecutiveFailures := 0,
        lastObservedAt := now, resolvedAt := Some(now))];
    }

    method UpdateDiagnostics(id: nat) returns (r: Result<()>)
      requires Valid()
      modifies this
      ensures Valid() && Did(RecoveryStore.UpdateDiagnostics(id))
      ensures r.Ok? <==> id < |old(incidents)| && old(incidents[id].activeKey).Some?
      ensures incidents == if r.Err? then old(incidents) else old(incidents)[id := old(incidents)[id].(lastObservedAt := now)]
    {
      ghost var e := RecoveryStore.UpdateDiagnostics(id);
      if id >= |incidents| {
        r := Err(KeyError);
      } else if incidents[id].activeKey.None? {
        r := Err(ValueError);
      } else {
        incidents := incidents[id := incidents[id].(lastObservedAt := now)];
        r := Ok(());
      }
      history := history + [e];
      Logged(e);
    }

    method MarkRecoveryPending(id: nat) returns (r: Result<()>)
      requires Valid()
      modifies this
      ensures Valid() && Did(RecoveryStore.MarkRecoveryPending(id))
      ensures r.Ok? <==>
              && id < |old(incidents)| && old(incidents)[id].activeKey.Some?
              && old(incidents)[id].state in {RecoveryStore.Suspect, RecoveryStore.Diagnosing, RecoveryStore.RecoveryPending}
      ensures incidents == if r.Err? then old(incidents)
                           else old(incidents)[id := old(incidents)[id].(state := RecoveryStore.RecoveryPending, lastObservedAt := now)]
      ensures |incidents| == |old(incidents)| && (r.Ok? ==> incidents[id].state == RecoveryStore.RecoveryPending)
    {
      ghost var e := RecoveryStore.MarkRecoveryPending(id);
      if id >= |incidents| {
        r := Err(KeyError);
      } else if incidents[id].activeKey.None? {
        r := Err(ValueError);
      } else if incidents[id].state !in {RecoveryStore.Suspect, RecoveryStore.Diagnosing, RecoveryStore.RecoveryPending} {
        r := Err(ValueError);
      } else {
        incidents := incidents[id := incidents[id].(state := RecoveryStore.RecoveryPending, lastObservedAt := now)];
        r := Ok(());
      }
      history := history + [e];
      Logged(e);
    }

    /** Allowed exactly for a pending incident whose component has budget left in the window and is out of cooldown. */
    method CanRecover(id: nat) returns (r: Result<RecoveryStore.Allowance>)
      requires Valid()
      ensures r == if id < |incidents| then Ok(RecoveryStore.CanRecover(View(), id)) else Err(KeyError)
      ensures r == Ok(RecoveryStore.StateNotPending) <==>
              id < |incidents| && !(incidents[id].activeKey.Some? && incidents[id].state == RecoveryStore.RecoveryPending)
      ensures r == Ok(RecoveryStore.BudgetExhausted) <==>
              && id < |incidents| && incidents[id].activeKey.Some? && incidents[id].state == RecoveryStore.RecoveryPending
              && RecoveryStore.CountBetween(attempts, incidents[id].component, now - cfg.window, now) >= cfg.budget
      ensures r == Ok(RecoveryStore.Cooldown) <==>
              && id < |incidents| && incidents[id].activeKey.Some? && incidents[id].state == RecoveryStore.RecoveryPending
              && RecoveryStore.CountBetween(attempts, incidents[id].component, now - cfg.window, now) < cfg.budget
              && incidents[id].lastAttemptAt.Some? && now < incidents[id].lastAttemptAt.value + cfg.cooldown
      ensures r == Ok(RecoveryStore.Allowed) <==>
              && id < |incidents| && incidents[id].activeKey.Some? && incidents[id].state == RecoveryStore.RecoveryPending
              && RecoveryStore.CountBetween(attempts, incidents[id].component, now - cfg.window, now) < cfg.budget
              && (incidents[id].lastAttemptAt.Some? ==> now >= incidents[id].lastAttemptAt.value + cfg.cooldown)
    {
      Sound();
      if id < |incidents| {
        RecoveryStore.CanRecoverMeans(View(), id);
      }
      if id >= |incidents| {
        return Err(KeyError);
      }
      var incident := incidents[id];
      var windowStart := now - cfg.window;
      if incident.activeKey.None? || !incident.state.RecoveryPending? {
        return Ok(RecoveryStore.StateNotPending);
      }
      var realAttempts := 0;
      for k := 0 to |attempts|
        invariant realAttempts == RecoveryStore.CountSince(attempts[..k], incident.component, windowStart)
      {
        assert attempts[..k + 1][..k] == attempts[..k];
        if attempts[k].component == incident.component && !attempts[k].simulated && attempts[k].at >= windowStart {
          realAttempts := realAttempts + 1;
        }
      }
      assert attempts[..|attempts|] == attempts;
      if realAttempts >= cfg.budget {
        return Ok(RecoveryStore.BudgetExhausted);
      }
      if incident.lastAttemptAt.Some? {
        var elapsed := now - incident.lastAttemptAt.value;
        if elapsed < cfg.cooldown {
          return Ok(RecoveryStore.Cooldown);
        }
      }
      r := Ok(RecoveryStore.Allowed);
    }

    /** A conditional UPDATE: only one mission is ever attached, and attaching it again is accepted. */
    method AttachMission(id: nat, missionId: nat) returns (r: Result<()>)
      requires Valid()
      modifies this
      ensures Valid() && Did(RecoveryStore.AttachMission(id, missionId))
      ensures r.Ok? <==> id < |incidents| && incidents[id].missionId == Some(missionId)
      ensures incidents == if && id < |old(incidents)| && old(incidents)[id].activeKey.Some?
                              && old(incidents)[id].state == RecoveryStore.RecoveryPending && old(incidents)[id].missionId.None?
                           then old(incidents)[id := old(incidents)[id].(missionId := Some(missionId))] else old(incidents)
    {
      ghost var e := RecoveryStore.AttachMission(id, missionId);
      if && id < |incidents|
         && incidents[id].activeKey.Some?
         && incidents[id].state == RecoveryStore.RecoveryPending
         && incidents[id].missionId.None? {
        incidents := incidents[id := incidents[id].(missionId := Some(missionId))];
        r := Ok(());
      } else if id >= |incidents| {
        r := Err(KeyError);
      } else if incidents[id].missionId == Some(missionId) {
        r := Ok(());
      } else {
        r := Err(ValueError);
      }
      history := history + [e];
      Logged(e);
    }

    method ClaimRecovery(id: nat) returns (claimed: bool)
      requires Valid()
      modifies this
      ensures Valid() && Did(RecoveryStore.ClaimRecovery(id))
      ensures claimed <==> id < |old(incidents)| && old(incidents[id].activeKey).Some? && old(incidents[id].state).RecoveryPending?
      ensures incidents == if claimed then old(incidents)[id := old(incidents)[id].(state := RecoveryStore.Recovering)] else old(incidents)
    {
      ghost var e := RecoveryStore.ClaimRecovery(id);
      claimed := id < |incidents| && incidents[id].activeKey.Some? && incidents[id].state == RecoveryStore.RecoveryPending;
      if claimed {
        incidents := incidents[id := incidents[id].(state := RecoveryStore.Recovering)];
      }
      history := history + [e];
      Logged(e);
    }

    method RecordAttempt(id: nat, missionId: Option<nat>, simulated: bool, outcome: string) returns (r: Result<nat>)
      requires Valid()
      modifies this
      ensures Valid() && Did(RecoveryStore.RecordAttempt(id, missionId, simulated, outcome))
      ensures r.Ok? <==> 0 < |outcome| <= 32 && id < |old(incidents)|
      ensures r.Ok? ==> r.value == |old(attempts)| && |attempts| == r.value + 1
      ensures attempts == if r.Err? then old(attempts)
                          else old(attempts) + [RecoveryStore.Attempt(id, old(incidents)[id].component, missionId, now, simulated, outcome)]
      ensures incidents == if r.Err? || simulated then old(incidents)
                           else old(incidents)[id := old(incidents)[id].(lastAttemptAt := Some(now))]
    {
      ghost var e := RecoveryStore.RecordAttempt(id, missionId, simulated, outcome);
      if outcome == "" || |outcome| > 32 {
        r := Err(ValueError);
      } else if id >= |incidents| {
        r := Err(KeyError);
      } else {
        r := Ok(|attempts|);
        attempts := attempts + [RecoveryStore.Attempt(id, incidents[id].component, missionId, now, simulated, outcome)];
        if !simulated {
          incidents := incidents[id := incidents[id].(lastAttemptAt := Some(now))];
        } else {
          assert incidents[id := incidents[id]] == incidents;
        }
      }
      history := history + [e];
      Logged(e);
    }

    method MarkVerifying(id: nat) returns (r: Result<()>)
      requires Valid()
      modifies this
      ensures Valid() && Did(RecoveryStore.MarkVerifying(id))
      ensures r.Ok? <==> id < |old(incidents)| && old(incidents[id].activeKey).Some?
      ensures incidents == if r.Err? then old(incidents)
                           else old(incidents)[id := old(incidents)[id].(state := RecoveryStore.Verifying, lastObservedAt := now)]
    {
      ghost var e := RecoveryStore.MarkVerifying(id);
      if id >= |incidents| {
        r := Err(KeyError);
      } else if incidents[id].activeKey.None? {
        r := Err(ValueError);
      } else {
        incidents := incidents[id := incidents[id].(state := RecoveryStore.Verifying, lastObservedAt := now)];
        r := Ok(());
      }
      history := history + [e];
      Logged(e);
    }

    /** Does not check that the incident is active. */
    method Resolve(id: nat) returns (r: Result<()>)
      requires Valid()
      modifies this
      ensures Valid() && Did(RecoveryStore.Resolve(id))
      ensures r.Ok? <==> id < |old(incidents)|
      ensures incidents == if r.Err? then old(incidents)
                           else old(incidents)[id := old(incidents)[id].(
                                  state := RecoveryStore.Resolved, activeKey := None, consecutiveFailures := 0,
                                  lastObservedAt := now, resolvedAt := Some(now))]
    {
      ghost var e := RecoveryStore.Resolve(id);
      if id >= |incidents| {
        r := Err(KeyError);
      } else {
        CloseResolved(id);
        r := Ok(());
      }
      history := history + [e];
      Logged(e);
    }

    /** Does not check that the incident is active. */
    method Escalate(id: nat, reason: string) returns (r: Result<()>)
      requires Valid()
      modifies this
      ensures Valid() && Did(RecoveryStore.Escalate(id, reason))
      ensures r.Ok? <==> reason != "" && id < |old(incidents)|
      ensures incidents == if r.Err? then old(incidents)
                           else old(incidents)[id := old(incidents)[id].(
                                  state := RecoveryStore.Escalated, activeKey := None, resolvedAt := Some(now), lastObservedAt := now,
                                  escalationReason := Some(if |reason| > 2048 then reason[..2048] else reason))]
    {
      ghost var e := RecoveryStore.Escalate(id, reason);
      if reason == "" {
        r := Err(ValueError);
      } else if id >= |incidents| {
        r := Err(KeyError);
      } else {
        incidents := incidents[id := incidents[id].(
          state := RecoveryStore.Escalated, activeKey := None,
          escalationReason := Some(if |reason| <= 2048 then reason else reason[..2048]),
          resolvedAt := Some(now), lastObservedAt := now)];
        r := Ok(());
      }
      history := history + [e];
      Logged(e);
    }
  }
}
