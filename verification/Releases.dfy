/**
 Publication, deployment and rollback of an approved code change (src/ai_hq/code_changes/service.py). The
 publisher, the deployer and the rollbacker are foreign: each call takes some time and may fail. The ghost log
 records every such call with the state it was made in.
 */
module Releases {
  import opened Prelude
  import opened Delivery
  import opened DeliveryService
  import Runs
  import Text

  datatype Loaded = Loaded(repository: string, changeRef: string, baseCommit: string)

  datatype PublishedCandidate = PublishedCandidate(repository: string, changeRef: string, identity: Publication, baseCommit: string)

  datatype DeployedRelease = DeployedRelease(repository: string, changeRef: string, identity: Deployment)

  datatype RolledBackRelease = RolledBackRelease(repository: string, changeRef: string, release: string)

  /** What a foreign call returns, and how long it takes. */
  datatype Foreign<T> = Foreign(result: Result<T>, ticks: nat)

  datatype Kind = ToPublish | ToDeploy(identity: Publication) | ToRollBack(release: string)

  /** One foreign call, made after the first `position` transactions of the history. */
  datatype Call = Call(kind: Kind, mission: nat, position: nat)

  /** The trusted repository of a code-change mission. */
  function Repository(details: Mission): Option<string> {
    if details.owner != "developer" || details.source != "hq_chat_code_change" || details.objectives == [] then None
    else
      var repository := Text.Strip(details.objectives[0]);
      if repository in {"ai-hq", "dripvid"} then Some(repository) else None
  }

  /** A code-change mission of the developer whose first objective is a trusted repository. */
  lemma RepositoryMeans(details: Mission, repository: string)
    ensures Repository(details) == Some(repository) <==>
            && details.owner == "developer" && details.source == "hq_chat_code_change"
            && 0 < |details.objectives| && Text.Strip(details.objectives[0]) == repository
            && (repository == "ai-hq" || repository == "dripvid")
  {
    hide Text.Strip;
  }

  /** The exact human approval of the delivery is persisted and unexpired. */
  predicate Cleared(s: Store, m: nat, id: nat, changeRef: string) {
    InForce(s, m, changeRef) && Repository(s.missions[m]).Some? && s.deliveries[m].approval == Some(id)
  }

  /** The stage before the call is recorded, its own record is not, and the approval stands at this moment. */
  predicate Justified(s: Store, kind: Kind, m: nat) {
    && m in s.deliveries
    && var d := s.deliveries[m];
       && d.approval.Some? && Cleared(s, m, d.approval.value, d.proposal.changeRef)
       && match kind
          case ToPublish => d.published.None?
          case ToDeploy(p) => d.published.Some? && d.published.value.identity == p && d.deployed.None?
          case ToRollBack(release) =>
            && d.published.Some? && d.deployed.Some? && d.deployed.value.identity.prior == Some(release) && d.rolledBack.None?
  }

  predicate Recorded(d: Delivery, kind: Kind) {
    match kind
    case ToPublish => d.published.Some?
    case ToDeploy(_) => d.deployed.Some?
    case ToRollBack(_) => d.rolledBack.Some?
  }

  ghost function StateAt(start: int, history: seq<Event>, position: nat): Store
    requires position <= |history|
  {
    Runs.Replay(Apply, Init(start), history[..position])
  }

  ghost predicate CallSound(start: int, history: seq<Event>, c: Call) {
    c.position <= |history| && Justified(StateAt(start, history, c.position), c.kind, c.mission)
  }

  /** A record made by some transaction is there after every later one. */
  lemma RecordStays(start: int, history: seq<Event>, p: nat, q: nat, m: nat, kind: Kind)
    requires p <= q <= |history|
    requires m in StateAt(start, history, p).deliveries && Recorded(StateAt(start, history, p).deliveries[m], kind)
    ensures m in StateAt(start, history, q).deliveries && Recorded(StateAt(start, history, q).deliveries[m], kind)
  {
    hide Apply;
    var s, t := StateAt(start, history, p), StateAt(start, history, q);
    assert history[..q] == history[..p] + history[p..q];
    Runs.Split(Apply, Init(start), history[..p], history[p..q]);
    InitHolds(start);
    RunKeeps(Init(start), history[..p]);
    RunKeeps(s, history[p..q]);
    assert DeliveryGrown(s.deliveries[m], t.deliveries[m]);
  }

  /** Once the record a call leads to exists, no such call is made again. */
  lemma NoCallAfterRecord(start: int, history: seq<Event>, c: Call, position: nat)
    requires CallSound(start, history, c) && position <= |history|
    requires var s := StateAt(start, history, position);
             c.mission in s.deliveries && Recorded(s.deliveries[c.mission], c.kind)
    ensures c.position < position
  {
    hide Runs.Replay, Apply;
    if position <= c.position {
      RecordStays(start, history, position, c.position, c.mission, c.kind);
    }
  }

  /** Every deployer call follows the recorded publication, every rollbacker call the recorded deployment. */
  lemma CallsFollowTheChain(start: int, history: seq<Event>, c: Call)
    requires CallSound(start, history, c)
    ensures var s := StateAt(start, history, c.position);
            && c.mission in s.deliveries
            && var d := s.deliveries[c.mission];
               && d.qa == Some(Passed) && d.approval.Some? && d.approval.value < |s.approvals|
               && s.approvals[d.approval.value].state == Approved
               && s.now < s.approvals[d.approval.value].createdAt + DAY
               && (c.kind != ToPublish ==> d.published.Some?)
               && (c.kind.ToRollBack? ==> d.deployed.Some? && d.deployed.value.identity.prior == Some(c.kind.release))
  {
    hide Apply;
    InitHolds(start);
    RunKeeps(Init(start), history[..c.position]);
    var s := StateAt(start, history, c.position);
    assert DeliverySound(s.approvals, c.mission, s.deliveries[c.mission], s.now);
  }

  class CodeChangeService {
    const delivery: Service
    const hasStore: bool
    const hasPublisher: bool
    const hasDeployer: bool
    const hasRollbacker: bool
    ghost var calls: seq<Call>

    constructor (delivery: Service, hasStore: bool, hasPublisher: bool, hasDeployer: bool, hasRollbacker: bool)
      requires delivery.Valid()
      ensures Valid() && this.delivery == delivery && calls == []
      ensures this.hasStore == hasStore && this.hasPublisher == hasPublisher
      ensures this.hasDeployer == hasDeployer && this.hasRollbacker == hasRollbacker
    {
      this.delivery, calls := delivery, [];
      this.hasStore, this.hasPublisher, this.hasDeployer, this.hasRollbacker := hasStore, hasPublisher, hasDeployer, hasRollbacker;
    }

    /** Every foreign call ever made was justified when it was made. */
    ghost predicate Valid()
      reads this, delivery
    {
      && delivery.Valid()
      && (forall i :: 0 <= i < |calls| ==> CallSound(delivery.start, delivery.history, calls[i]))
      && (forall i :: 0 <= i < |calls| ==> calls[i].position <= |delivery.history|)
    }

    /** The calls so far stay justified when the delivery tables move on. */
    lemma CallsStay(history: seq<Event>)
      requires forall i :: 0 <= i < |calls| ==> CallSound(delivery.start, history, calls[i])
      requires history <= delivery.history
      ensures forall i :: 0 <= i < |calls| ==> CallSound(delivery.start, delivery.history, calls[i])
    {
      forall i | 0 <= i < |calls|
        ensures CallSound(delivery.start, delivery.history, calls[i])
      {
        assert CallSound(delivery.start, history, calls[i]);
        assert delivery.history[..calls[i].position] == history[..calls[i].position];
      }
    }

    /** The checks every release step starts with, ending in `apply_human_decision`. */
    method Confirm(m: nat, id: nat, changeRef: string) returns (r: Result<(string, Delivery)>)
      requires Valid()
      modifies delivery
      ensures Valid() && old(delivery.history) <= delivery.history
      ensures r.Ok? <==> old(Cleared(delivery.View(), m, id, changeRef))
      ensures r.Ok? ==> delivery.View() == old(delivery.View()) && r.value.1 == delivery.deliveries[m]
                        && Repository(delivery.missions[m]) == Some(r.value.0)
      ensures r.Ok? ==> delivery.history == old(delivery.history) + [ApplyDecision(m, id, changeRef)]
      ensures delivery.View() == old(delivery.View())
              || delivery.View() == Apply(old(delivery.View()), ApplyDecision(m, id, changeRef))
    {
      hide Runs.Replay, CallSound, Text.Strip;
      if m >= |delivery.missions| {
        return Err(KeyError);
      }
      var repository := Repository(delivery.missions[m]);
      if repository.None? {
        return Err(ValueError);
      }
      var found := delivery.GetDelivery(m);
      if found.Err? {
        return Err(found.error);
      }
      var d := found.value;
      if d.qa != Some(Passed) || d.stage != WaitingApproval || d.approval != Some(id) || d.proposal.changeRef != changeRef {
        return Err(ValueError);
      }
      ghost var history := delivery.history;
      var decided := delivery.ApplyHumanDecision(m, id, changeRef);
      CallsStay(history);
      if decided.Err? {
        return Err(decided.error);
      }
      if decided.value.stage != WaitingApproval || decided.value.qa != Some(Passed) || decided.value.approval != Some(id) {
        return Err(ValueError);
      }
      r := Ok((repository.value, decided.value));
    }

    /** Records a foreign call made now, and lets the time it takes pass. */
    method MakeCall(kind: Kind, m: nat, ticks: nat)
      requires Valid() && Justified(delivery.View(), kind, m)
      modifies this, delivery
      ensures Valid() && old(delivery.history) <= delivery.history
      ensures calls == old(calls) + [Call(kind, m, |old(delivery.history)|)]
      ensures delivery.View() == old(delivery.View()).(now := old(delivery.now) + ticks)
    {
      hide Runs.Replay, Justified;
      ghost var history := delivery.history;
      assert history[..|history|] == history;
      calls := calls + [Call(kind, m, |history|)];
      delivery.Wait(ticks);
      CallsStay(history);
    }

    /** Calls the publisher and records what it returns, if it names the same candidate. */
    method CallPublisher(m: nat, repository: string, candidate: Loaded, publisher: Foreign<PublishedCandidate>) returns (r: Result<Delivery>)
      requires Valid() && Justified(delivery.View(), ToPublish, m)
      modifies this, delivery
      ensures Valid() && old(delivery.history) <= delivery.history
      ensures calls == old(calls) + [Call(ToPublish, m, |old(delivery.history)|)]
      ensures r.Ok? <==>
              && publisher.result.Ok? && publisher.result.value.repository == repository
              && publisher.result.value.changeRef == candidate.changeRef && publisher.result.value.baseCommit == candidate.baseCommit
              && ValidPublication(publisher.result.value.identity)
              && InForce(old(delivery.View()).(now := old(delivery.now) + publisher.ticks), m, candidate.changeRef)
      ensures r.Ok? ==>
                && publisher.result.Ok? && publisher.result.value.repository == repository
                && publisher.result.value.changeRef == candidate.changeRef && publisher.result.value.baseCommit == candidate.baseCommit
                && m in delivery.deliveries && delivery.deliveries[m] == r.value
                && r.value.published == Some(Record(publisher.result.value.identity, delivery.now))
    {
      hide Runs.Replay, CallSound, Cleared, Publishing;
      MakeCall(ToPublish, m, publisher.ticks);
      if publisher.result.Err? {
        return Err(publisher.result.error);
      }
      var published := publisher.result.value;
      if published.repository != repository || published.changeRef != candidate.changeRef || published.baseCommit != candidate.baseCommit {
        return Err(ValueError);
      }
      ghost var before := delivery.View();
      ghost var history := delivery.history;
      r := delivery.RecordPublication(m, candidate.changeRef, published.identity);
      CallsStay(history);
      PublicationExactly(before, m, candidate.changeRef, published.identity);
    }

    /**
     Publishes an approved candidate. The publisher is called exactly when the approval is in force, nothing has been
     published yet and the stored candidate is the approved one; what it returns is recorded only if it names the
     same candidate and the approval is still in force.
     */
    method PublishApprovedCandidate(m: nat, id: nat, changeRef: string, loaded: Result<Loaded>, publisher: Foreign<PublishedCandidate>)
      returns (r: Result<Delivery>, called: bool)
      requires Valid()
      modifies this, delivery
      ensures Valid() && old(delivery.history) <= delivery.history
      ensures called <==> old(Publishable(m, id, changeRef, loaded))
      ensures calls == old(calls) + if called then [Call(ToPublish, m, |old(delivery.history)| + 1)] else []
      ensures r.Ok? ==> m in delivery.deliveries && delivery.deliveries[m] == r.value && r.value.published.Some?
      ensures r.Ok? && called ==>
                publisher.result.Ok? && r.value.published == Some(Record(publisher.result.value.identity, delivery.now))
      ensures r.Ok? && !called ==> delivery.View() == old(delivery.View())
      ensures !called ==> (r.Ok? <==> old(Cleared(delivery.View(), m, id, changeRef) && delivery.deliveries[m].published.Some?))
      ensures called ==>
                (r.Ok? <==>
                 && publisher.result.Ok? && loaded.Ok? && publisher.result.value.repository == loaded.value.repository
                 && publisher.result.value.changeRef == changeRef && publisher.result.value.baseCommit == loaded.value.baseCommit
                 && ValidPublication(publisher.result.value.identity)
                 && InForce(old(delivery.View()).(now := old(delivery.now) + publisher.ticks), m, changeRef))
    {
      hide Runs.Replay, CallSound, Repository, Request, Apply;
      called := false;
      var confirmed := Confirm(m, id, changeRef);
      if confirmed.Err? {
        return Err(confirmed.error), false;
      }
      var (repository, d) := confirmed.value;
      if d.published.Some? {
        return Ok(d), false;
      }
      if !hasStore || !hasPublisher {
        return Err(RuntimeError), false;
      }
      if loaded.Err? {
        return Err(loaded.error), false;
      }
      if loaded.value.repository != repository || loaded.value.changeRef != changeRef {
        return Err(ValueError), false;
      }
      r := CallPublisher(m, repository, loaded.value, publisher);
      called := true;
    }

    ghost predicate Publishable(m: nat, id: nat, changeRef: string, loaded: Result<Loaded>)
      reads this, delivery
    {
      && Cleared(delivery.View(), m, id, changeRef) && delivery.deliveries[m].published.None?
      && hasStore && hasPublisher && LoadedFor(delivery.missions[m], changeRef, loaded)
    }

    /** Deploys a published candidate; the deployer is given the recorded publication. */
    method DeployApprovedCandidate(m: nat, id: nat, changeRef: string, loaded: Result<Loaded>, deployer: Foreign<DeployedRelease>)
      returns (r: Result<Delivery>, called: bool)
      requires Valid()
      modifies this, delivery
      ensures Valid() && old(delivery.history) <= delivery.history
      ensures called <==> old(Deployable(m, id, changeRef, loaded))
      ensures calls == old(calls) + if called then [Call(ToDeploy(old(delivery.deliveries)[m].published.value.identity), m,
                                                         |old(delivery.history)| + 1)] else []
      ensures r.Ok? ==> m in delivery.deliveries && delivery.deliveries[m] == r.value && r.value.deployed.Some?
      ensures r.Ok? && called ==>
                deployer.result.Ok? && r.value.deployed == Some(Record(deployer.result.value.identity, delivery.now))
      ensures r.Ok? && !called ==> delivery.View() == old(delivery.View())
      ensures !called ==>
                (r.Ok? <==> old(Cleared(delivery.View(), m, id, changeRef) && delivery.deliveries[m].published.Some? && delivery.deliveries[m].deployed.Some?))
      ensures called ==>
                (r.Ok? <==>
                 && deployer.result.Ok? && loaded.Ok? && deployer.result.value.repository == loaded.value.repository
                 && deployer.result.value.changeRef == changeRef && ValidDeployment(deployer.result.value.identity)
                 && InForce(old(delivery.View()).(now := old(delivery.now) + deployer.ticks), m, changeRef))
    {
      hide Runs.Replay, CallSound, Repository, Request, Apply;
      called := false;
      var confirmed := Confirm(m, id, changeRef);
      if confirmed.Err? {
        return Err(confirmed.error), false;
      }
      var (repository, d) := confirmed.value;
      if d.published.None? {
        return Err(ValueError), false;
      }
      if d.deployed.Some? {
        return Ok(d), false;
      }
      if !hasDeployer || !hasStore {
        return Err(RuntimeError), false;
      }
      if loaded.Err? {
        return Err(loaded.error), false;
      }
      if loaded.value.repository != repository || loaded.value.changeRef != changeRef {
        return Err(ValueError), false;
      }
      r := CallDeployer(m, repository, changeRef, d.published.value.identity, deployer);
      called := true;
    }

    method CallDeployer(m: nat, repository: string, changeRef: string, identity: Publication, deployer: Foreign<DeployedRelease>)
      returns (r: Result<Delivery>)
      requires Valid() && Justified(delivery.View(), ToDeploy(identity), m)
      modifies this, delivery
      ensures Valid() && old(delivery.history) <= delivery.history
      ensures calls == old(calls) + [Call(ToDeploy(identity), m, |old(delivery.history)|)]
      ensures r.Ok? <==>
              && deployer.result.Ok? && deployer.result.value.repository == repository && deployer.result.value.changeRef == changeRef
              && ValidDeployment(deployer.result.value.identity)
              && InForce(old(delivery.View()).(now := old(delivery.now) + deployer.ticks), m, changeRef)
      ensures r.Ok? ==>
                && deployer.result.Ok? && deployer.result.value.repository == repository && deployer.result.value.changeRef == changeRef
                && m in delivery.deliveries && delivery.deliveries[m] == r.value
                && r.value.deployed == Some(Record(deployer.result.value.identity, delivery.now))
    {
      hide Runs.Replay, CallSound, Cleared, Deploying;
      MakeCall(ToDeploy(identity), m, deployer.ticks);
      if deployer.result.Err? {
        return Err(deployer.result.error);
      }
      var deployed := deployer.result.value;
      if deployed.repository != repository || deployed.changeRef != changeRef {
        return Err(ValueError);
      }
      ghost var before := delivery.View();
      ghost var history := delivery.history;
      r := delivery.RecordDeployment(m, changeRef, deployed.identity);
      CallsStay(history);
      DeploymentExactly(before, m, changeRef, deployed.identity);
    }

    ghost predicate Deployable(m: nat, id: nat, changeRef: string, loaded: Result<Loaded>)
      reads this, delivery
    {
      && Cleared(delivery.View(), m, id, changeRef) && delivery.deliveries[m].published.Some? && delivery.deliveries[m].deployed.None?
      && hasStore && hasDeployer && LoadedFor(delivery.missions[m], changeRef, loaded)
    }

    /** Rolls a deployment back; the rollbacker is only ever asked for the recorded prior release. */
    method RollbackApprovedDeployment(m: nat, id: nat, changeRef: string, rollbacker: Foreign<RolledBackRelease>)
      returns (r: Result<Delivery>, called: bool)
      requires Valid()
      modifies this, delivery
      ensures Valid() && old(delivery.history) <= delivery.history
      ensures called <==> old(Revertible(m, id, changeRef))
      ensures calls == old(calls) + if called then [Call(ToRollBack(old(delivery.deliveries)[m].deployed.value.identity.prior.value), m,
                                                         |old(delivery.history)| + 1)] else []
      ensures r.Ok? ==>
                && m in delivery.deliveries && delivery.deliveries[m] == r.value
                && r.value.rolledBack.Some? && r.value.deployed.Some?
                && r.value.deployed.value.identity.prior == Some(r.value.rolledBack.value.identity)
      ensures r.Ok? && called ==> rollbacker.result.Ok? && r.value.rolledBack.value.at == delivery.now
      ensures called ==>
                (r.Ok? <==>
                 && rollbacker.result.Ok? && Some(rollbacker.result.value.repository) == Repository(old(delivery.missions)[m])
                 && rollbacker.result.value.changeRef == changeRef && ValidRelease(rollbacker.result.value.release)
                 && old(delivery.deliveries)[m].deployed.value.identity.prior == Some(rollbacker.result.value.release)
                 && InForce(old(delivery.View()).(now := old(delivery.now) + rollbacker.ticks), m, changeRef))
      ensures r.Ok? && !called ==> delivery.View() == old(delivery.View())
      ensures !called ==>
                (r.Ok? <==> old(Cleared(delivery.View(), m, id, changeRef) && delivery.deliveries[m].published.Some?
                                && delivery.deliveries[m].deployed.Some? && delivery.deliveries[m].rolledBack.Some?))
    {
      hide Runs.Replay, CallSound, Repository, Request, Apply;
      delivery.Sound();
      called := false;
      var confirmed := Confirm(m, id, changeRef);
      if confirmed.Err? {
        return Err(confirmed.error), false;
      }
      var (repository, d) := confirmed.value;
      if d.published.None? || d.deployed.None? || d.deployed.value.identity.prior.None? {
        return Err(ValueError), false;
      }
      var prior := d.deployed.value.identity.prior.value;
      if d.rolledBack.Some? {
        return if d.rolledBack.value.identity == prior then Ok(d) else Err(ValueError), false;
      }
      if !hasRollbacker {
        return Err(RuntimeError), false;
      }
      r := CallRollbacker(m, repository, changeRef, prior, rollbacker);
      called := true;
    }

    method CallRollbacker(m: nat, repository: string, changeRef: string, prior: string, rollbacker: Foreign<RolledBackRelease>)
      returns (r: Result<Delivery>)
      requires Valid() && Justified(delivery.View(), ToRollBack(prior), m)
      modifies this, delivery
      ensures Valid() && old(delivery.history) <= delivery.history
      ensures calls == old(calls) + [Call(ToRollBack(prior), m, |old(delivery.history)|)]
      ensures r.Ok? <==>
              && rollbacker.result == Ok(RolledBackRelease(repository, changeRef, prior)) && ValidRelease(prior)
              && InForce(old(delivery.View()).(now := old(delivery.now) + rollbacker.ticks), m, changeRef)
      ensures r.Ok? ==>
                && rollbacker.result.Ok? && rollbacker.result.value == RolledBackRelease(repository, changeRef, prior)
                && m in delivery.deliveries && delivery.deliveries[m] == r.value
                && r.value.rolledBack == Some(Record(prior, delivery.now))
                && r.value.deployed.Some? && r.value.deployed.value.identity.prior == Some(prior)
    {
      hide Runs.Replay, CallSound, Cleared, RollingBack;
      MakeCall(ToRollBack(prior), m, rollbacker.ticks);
      if rollbacker.result.Err? {
        return Err(rollbacker.result.error);
      }
      var restored := rollbacker.result.value;
      if restored.repository != repository || restored.changeRef != changeRef || restored.release != prior {
        return Err(ValueError);
      }
      ghost var before := delivery.View();
      ghost var history := delivery.history;
      r := delivery.RecordRollback(m, changeRef, restored.release);
      CallsStay(history);
      RollbackExactly(before, m, changeRef, restored.release);
    }

    ghost predicate Revertible(m: nat, id: nat, changeRef: string)
      reads this, delivery
    {
      && Cleared(delivery.View(), m, id, changeRef)
      && var d := delivery.deliveries[m];
         d.published.Some? && d.deployed.Some? && d.deployed.value.identity.prior.Some? && d.rolledBack.None? && hasRollbacker
    }
  }

  predicate LoadedFor(details: Mission, changeRef: string, loaded: Result<Loaded>) {
    loaded.Ok? && Repository(details) == Some(loaded.value.repository) && loaded.value.changeRef == changeRef
  }
}
