/**
 DeliveryService as an object over its tables (src/ai_hq/delivery/service.py). Every method is proved to be one
 transaction of Delivery, so what Delivery proves about runs holds throughout the object's life.
 */
module DeliveryService {
  import opened Prelude
  import opened Delivery
  import Runs
  import Text

  class Service {
    var missions: seq<Mission>
    var deliveries: map<nat, Delivery>
    var approvals: seq<Approval>
    var now: int
    ghost var history: seq<Event>
    ghost const start: int

    ghost function View(): Store
      reads this
    {
      Store(missions, deliveries, approvals, now)
    }

    ghost predicate Valid()
      reads this
    {
      View() == Runs.Replay(Apply, Init(start), history)
    }

    lemma Sound()
      requires Valid()
      ensures Inv(View())
    {
      InitHolds(start);
      RunKeeps(Init(start), history);
    }

    constructor (now: int)
      ensures Valid() && View() == Init(now)
    {
      missions, deliveries, approvals, this.now, history, start := [], map[], [], now, [], now;
    }

    ghost method Log(before: Store, e: Event)
      requires before == Runs.Replay(Apply, Init(start), history) && View() == Apply(before, e)
      modifies this`history
      ensures Valid() && history == old(history) + [e]
    {
      hide Apply;
      Runs.Extend(Apply, Init(start), history, e);
      history := history + [e];
    }

    method CreateMission(details: Mission) returns (m: nat)
      requires Valid()
      modifies this
      ensures Valid() && m == |old(missions)| && View() == Apply(old(View()), Event.CreateMission(details))
      ensures history == old(history) + [Event.CreateMission(details)]
    {
      hide Runs.Replay;
      ghost var before := View();
      m := |missions|;
      missions := missions + [details];
      Log(before, Event.CreateMission(details));
    }

    method Wait(ticks: nat)
      requires Valid()
      modifies this
      ensures Valid() && View() == Apply(old(View()), Tick(ticks))
      ensures history == old(history) + [Tick(ticks)]
    {
      hide Runs.Replay;
      ghost var before := View();
      now := now + ticks;
      Log(before, Tick(ticks));
    }

    /** A request is decided once. */
    method DecideRequest(id: nat, decision: ApprovalState) returns (r: Result<()>)
      requires Valid()
      modifies this
      ensures Valid() && View() == Apply(old(View()), Decide(id, decision))
      ensures history == old(history) + [Decide(id, decision)]
      ensures r.Ok? <==> decision != Pending && id < |old(approvals)| && old(approvals)[id].state == Pending
    {
      hide Runs.Replay;
      ghost var before := View();
      if decision == Pending {
        r := Err(ValueError);
      } else if id >= |approvals| {
        r := Err(KeyError);
      } else if approvals[id].state != Pending {
        r := Err(ValueError);
      } else {
        approvals := approvals[id := approvals[id].(state := decision, decidedAt := Some(now))];
        r := Ok(());
      }
      Log(before, Decide(id, decision));
    }

    method GetDelivery(m: nat) returns (r: Result<Delivery>)
      ensures r == if m in deliveries then Ok(deliveries[m]) else Err(KeyError)
    {
      r := if m in deliveries then Ok(deliveries[m]) else Err(KeyError);
    }

    /** One proposal per mission, and only for a QUEUED or RUNNING mission. */
    method SubmitDeveloperProposal(m: nat, changeRef: string, summary: string, changedFiles: seq<string>, evidence: string)
      returns (r: Result<Delivery>)
      requires Valid()
      modifies this
      ensures Valid()
      ensures r == Submitting(old(View()), m, Proposal(changeRef, summary, changedFiles, evidence))
      ensures View() == Apply(old(View()), Submit(m, Proposal(changeRef, summary, changedFiles, evidence)))
      ensures history == old(history) + [Submit(m, Proposal(changeRef, summary, changedFiles, evidence))]
    {
      hide Runs.Replay, Text.Strip;
      ghost var before := View();
      var proposal := Proposal(changeRef, summary, changedFiles, evidence);
      if Text.Strip(changeRef) == "" || Text.Strip(summary) == "" {
        r := Err(ValueError);
      } else if m >= |missions| {
        r := Err(KeyError);
      } else if m in deliveries || missions[m].status !in {Queued, Running} {
        r := Err(ValueError);
      } else {
        var d := Delivery(Qa, proposal, None, None, None, None, None);
        missions := missions[m := missions[m].(status := Running)];
        deliveries := deliveries[m := d];
        r := Ok(d);
      }
      Log(before, Submit(m, proposal));
    }

    /** A failed proposal goes back to its developer; a passed one gets an approval request open for 24 hours. */
    method RecordQaResult(m: nat, changeRef: string, result: QaResult) returns (r: Result<Delivery>)
      requires Valid()
      modifies this
      ensures Valid()
      ensures r == Judging(old(View()), m, changeRef, result)
      ensures r.Ok? && result == Failed ==>
                && m in deliveries && deliveries[m].stage == Developer && deliveries[m].qa == Some(Failed)
                && deliveries[m].approval.None? && approvals == old(approvals)
      ensures r.Ok? && result == Passed ==>
                && m in deliveries && deliveries[m].stage == WaitingApproval && deliveries[m].qa == Some(Passed)
                && deliveries[m].approval == Some(|old(approvals)|)
                && approvals == old(approvals) + [Approval(m, changeRef, Some(changeRef), Pending, now, now + 24 * HOUR, None)]
      ensures View() == Apply(old(View()), RecordQa(m, changeRef, result))
      ensures history == old(history) + [RecordQa(m, changeRef, result)]
    {
      hide Runs.Replay;
      ghost var before := View();
      QaExactly(before, m, changeRef, result);
      if m >= |missions| || m !in deliveries {
        r := Err(KeyError);
      } else {
        var d := deliveries[m];
        if d.stage != Qa || d.proposal.changeRef != changeRef {
          r := Err(ValueError);
        } else if result == Failed {
          d := d.(qa := Some(Failed), stage := Developer, approval := None);
          deliveries := deliveries[m := d];
          r := Ok(d);
        } else if missions[m].status != Running {
          r := Err(ValueError);
        } else {
          var id := |approvals|;
          approvals := approvals + [Approval(m, changeRef, Some(changeRef), Pending, now, now + DAY, None)];
          d := d.(qa := Some(Passed), stage := WaitingApproval, approval := Some(id));
          deliveries := deliveries[m := d];
          missions := missions[m := missions[m].(status := AwaitingApproval)];
          r := Ok(d);
        }
      }
      Log(before, RecordQa(m, changeRef, result));
    }

    /** Applies a decision that has been made: approval leaves the delivery waiting, anything else sends it back. */
    method ApplyHumanDecision(m: nat, id: nat, changeRef: string) returns (r: Result<Delivery>)
      requires Valid()
      modifies this
      ensures Valid()
      ensures r == Applying(old(View()), m, id, changeRef)
      ensures View() == Apply(old(View()), ApplyDecision(m, id, changeRef))
      ensures history == old(history) + [ApplyDecision(m, id, changeRef)]
    {
      hide Runs.Replay;
      ghost var before := View();
      if m >= |missions| || m !in deliveries {
        r := Err(KeyError);
      } else {
        var d := deliveries[m];
        if d.stage != WaitingApproval || d.approval != Some(id) || d.proposal.changeRef != changeRef {
          r := Err(ValueError);
        } else {
          var request := GetRequest(m, id, changeRef);
          if request.Err? {
            r := Err(request.error);
          } else if request.value.state == Pending {
            r := Err(ValueError);
          } else if request.value.state == Approved {
            r := Ok(d);
          } else {
            d := d.(stage := Developer, approval := None);
            deliveries := deliveries[m := d];
            missions := missions[m := missions[m].(status := Running)];
            r := Ok(d);
          }
        }
      }
      Log(before, ApplyDecision(m, id, changeRef));
    }

    /** The request, checked against the mission, the proposal and the clock. */
    method GetRequest(m: nat, id: nat, changeRef: string) returns (r: Result<Approval>)
      ensures r == Request(View(), m, id, changeRef)
    {
      if id >= |approvals| {
        return Err(KeyError);
      }
      var a := approvals[id];
      if a.mission != m || a.target != changeRef || a.planChangeRef != Some(changeRef) || a.expiresAt <= now {
        return Err(ValueError);
      }
      r := Ok(a);
    }

    /** The checks before anything is recorded: the delivery waits on a passed QA with a request. */
    method CheckReady(m: nat, changeRef: string) returns (r: Result<Delivery>)
      ensures r == Ready(View(), m, changeRef)
    {
      if m >= |missions| || m !in deliveries {
        return Err(KeyError);
      }
      var d := deliveries[m];
      if d.proposal.changeRef != changeRef || d.stage != WaitingApproval || d.qa != Some(Passed) || d.approval.None? {
        return Err(ValueError);
      }
      r := Ok(d);
    }

    method CheckGranted(m: nat, d: Delivery, changeRef: string) returns (r: Result<Delivery>)
      requires d.approval.Some?
      ensures r == Granted(View(), m, d, changeRef)
    {
      var request := GetRequest(m, d.approval.value, changeRef);
      if request.Err? {
        return Err(request.error);
      }
      r := if request.value.state == Approved then Ok(d) else Err(ValueError);
    }

    /** Writes what a record call returned, and logs the call. */
    method Write(m: nat, r: Result<Delivery>, ghost e: Event)
      requires Valid() && Apply(View(), e) == Save(View(), m, r)
      modifies this
      ensures Valid() && View() == Apply(old(View()), e)
      ensures history == old(history) + [e]
    {
      hide Runs.Replay, Apply;
      ghost var before := View();
      if r.Ok? {
        deliveries := deliveries[m := r.value];
      }
      Log(before, e);
    }

    method CheckPublication(m: nat, changeRef: string, p: Publication) returns (r: Result<Delivery>)
      ensures r == Publishing(View(), m, changeRef, p)
    {
      if !(BRANCH_PREFIX <= p.branch && Text.IsGitSha(p.commit) && Text.IsGitSha(p.tree)) {
        return Err(ValueError);
      }
      r := CheckReady(m, changeRef);
      if r.Err? {
        return;
      }
      r := CheckGranted(m, r.value, changeRef);
      if r.Err? {
        return;
      }
      var d := r.value;
      if d.published.Some? {
        return if d.published.value.identity == p then Ok(d) else Err(ValueError);
      }
      r := Ok(d.(published := Some(Record(p, now))));
    }

    /** Publication is recorded once; recording the same identity again changes nothing. */
    method RecordPublication(m: nat, changeRef: string, p: Publication) returns (r: Result<Delivery>)
      requires Valid()
      modifies this
      ensures Valid()
      ensures r == Publishing(old(View()), m, changeRef, p)
      ensures View() == Apply(old(View()), Publish(m, changeRef, p))
      ensures history == old(history) + [Publish(m, changeRef, p)]
    {
      hide Runs.Replay, Publishing;
      r := CheckPublication(m, changeRef, p);
      Write(m, r, Publish(m, changeRef, p));
    }

    method CheckDeployment(m: nat, changeRef: string, identity: Deployment) returns (r: Result<Delivery>)
      ensures r == Deploying(View(), m, changeRef, identity)
    {
      if !ValidRelease(identity.release) || (identity.prior.Some? && !ValidRelease(identity.prior.value)) {
        return Err(ValueError);
      }
      r := CheckReady(m, changeRef);
      if r.Err? {
        return;
      }
      if r.value.published.None? {
        return Err(ValueError);
      }
      r := CheckGranted(m, r.value, changeRef);
      if r.Err? {
        return;
      }
      var d := r.value;
      if d.deployed.Some? {
        return if d.deployed.value.identity == identity then Ok(d) else Err(ValueError);
      }
      r := Ok(d.(deployed := Some(Record(identity, now))));
    }

    method RecordDeployment(m: nat, changeRef: string, identity: Deployment) returns (r: Result<Delivery>)
      requires Valid()
      modifies this
      ensures Valid()
      ensures r == Deploying(old(View()), m, changeRef, identity)
      ensures View() == Apply(old(View()), Deploy(m, changeRef, identity))
      ensures history == old(history) + [Deploy(m, changeRef, identity)]
    {
      hide Runs.Replay, Deploying;
      r := CheckDeployment(m, changeRef, identity);
      Write(m, r, Deploy(m, changeRef, identity));
    }

    method CheckRollback(m: nat, changeRef: string, release: string) returns (r: Result<Delivery>)
      ensures r == RollingBack(View(), m, changeRef, release)
    {
      if !ValidRelease(release) {
        return Err(ValueError);
      }
      r := CheckReady(m, changeRef);
      if r.Err? {
        return;
      }
      if r.value.published.None? || r.value.deployed.None? || r.value.deployed.value.identity.prior != Some(release) {
        return Err(ValueError);
      }
      r := CheckGranted(m, r.value, changeRef);
      if r.Err? {
        return;
      }
      var d := r.value;
      if d.rolledBack.Some? {
        return if d.rolledBack.value.identity == release then Ok(d) else Err(ValueError);
      }
      r := Ok(d.(rolledBack := Some(Record(release, now))));
    }

    /** Only the prior release that the deployment recorded can be recorded as restored. */
    method RecordRollback(m: nat, changeRef: string, release: string) returns (r: Result<Delivery>)
      requires Valid()
      modifies this
      ensures Valid()
      ensures r == RollingBack(old(View()), m, changeRef, release)
      ensures View() == Apply(old(View()), RollBack(m, changeRef, release))
      ensures history == old(history) + [RollBack(m, changeRef, release)]
    {
      hide Runs.Replay, RollingBack;
      r := CheckRollback(m, changeRef, release);
      Write(m, r, RollBack(m, changeRef, release));
    }
  }
}
