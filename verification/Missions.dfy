/**
 Missions with their plans, as MissionService updates them row by row (src/ai_hq/missions/service.py), and the
 reference meaning of executing a plan: an in-order fold over the replies its requests receive.
 */
module Missions {
  import opened Prelude
  import opened SafetyPolicy
  import opened PlanSteps
  import Authority
  import CanonicalJson

  datatype MissionStatus = Queued | InProgress | AwaitingApproval | Paused | Completed | Abandoned | Cancelled

  /** The mission transition table; `Abandoned` is the source's FAILED. */
  predicate CanBecome(from: MissionStatus, to: MissionStatus) {
    match from
    case Queued => to in {InProgress, Paused, Cancelled, Abandoned}
    case InProgress => to in {AwaitingApproval, Paused, Completed, Abandoned, Cancelled}
    case AwaitingApproval => to in {InProgress, Paused, Cancelled, Abandoned}
    case Paused => to in {Queued, InProgress, Cancelled, Abandoned}
    case _ => false
  }

  /** The arguments of a step: `target` and `conditions` may be missing, the rest are parameters. */
  datatype Task = Task(tool: string, target: Option<string>, conditions: Option<Json>, mutates: bool, params: Json)

  datatype Mission = Mission(
    idText: string, agent: string, risk: Risk, status: MissionStatus,
    plan: seq<Task>, steps: seq<StepStatus>, references: seq<Option<nat>>)
  {
    predicate Consistent() {
      |plan| == |steps| == |references|
    }
  }

  /** The columns of the table: what each status can be reached from. COMPLETED, FAILED and CANCELLED are final. */
  lemma TransitionColumns(from: MissionStatus, to: MissionStatus)
    ensures from in {Completed, Abandoned, Cancelled} ==> !CanBecome(from, to)
    ensures to == Queued ==> (CanBecome(from, to) <==> from == Paused)
    ensures to == InProgress ==> (CanBecome(from, to) <==> from in {Queued, AwaitingApproval, Paused})
    ensures to == AwaitingApproval ==> (CanBecome(from, to) <==> from == InProgress)
    ensures to == Completed ==> (CanBecome(from, to) <==> from == InProgress)
    ensures to == Paused ==> (CanBecome(from, to) <==> from in {Queued, InProgress, AwaitingApproval})
    ensures to in {Abandoned, Cancelled} ==> (CanBecome(from, to) <==> from in {Queued, InProgress, AwaitingApproval, Paused})
  {
  }

  /** `_request_for`: None when the conditions are not an object. */
  function RequestFor(id: nat, m: Mission, k: nat): Option<ToolRequest>
    requires k < |m.plan|
  {
    var t := m.plan[k];
    if t.conditions.Some? && !t.conditions.value.Obj? then None
    else Some(ToolRequest(id, m.agent, t.tool, if t.target.Some? then t.target.value else m.idText, m.risk, t.params,
                          if t.conditions.Some? then t.conditions.value else Empty(), t.mutates))
  }

  function Empty(): Json {
    CanonicalJson.Obj([])
  }

  /** The request carries everything the task says, in the name of its mission. */
  predicate Carries(q: ToolRequest, id: nat, m: Mission, k: nat)
    requires k < |m.plan|
  {
    var t := m.plan[k];
    && q.mission == id && q.agent == m.agent && q.risk == m.risk
    && q.capability == t.tool && q.params == t.params && q.mutates == t.mutates
    && (match t.target case Some(target) => q.target == target case None => q.target == m.idText)
    && (match t.conditions
        case Some(conditions) => q.conditions == conditions && conditions.Obj?
        case None => q.conditions == CanonicalJson.Obj([]))
  }

  /** A request can be built exactly when the conditions, if given, are an object; it then carries the whole task. */
  lemma RequestCarriesTask(id: nat, m: Mission, k: nat)
    requires k < |m.plan|
    ensures RequestFor(id, m, k).None? <==> m.plan[k].conditions.Some? && !m.plan[k].conditions.value.Obj?
    ensures RequestFor(id, m, k).Some? ==> Carries(RequestFor(id, m, k).value, id, m, k)
  {
  }

  // ---------- the in-order fold ----------

  type Reply = Authority.Reply

  predicate Success(r: Reply) {
    r.Executed? || r.Simulated?
  }

  predicate Failure(r: Reply) {
    r.Blocked? || r.Failed?
  }

  function Successes(replies: seq<Reply>): (n: nat)
    ensures n <= |replies|
  {
    if replies == [] then 0
    else Successes(replies[..|replies| - 1]) + (if Success(replies[|replies| - 1]) then 1 else 0)
  }

  /** The step the i-th request is for: as many steps as have succeeded before it. */
  function StepOf(replies: seq<Reply>, i: nat): nat
    requires i <= |replies|
  {
    Successes(replies[..i])
  }

  /** The replies of a plan of n steps: nothing follows a failure, and no request is made when all steps have succeeded. */
  ghost predicate Possible(n: nat, replies: seq<Reply>) {
    forall i :: 0 <= i < |replies| ==> StepOf(replies, i) < n && (i + 1 < |replies| ==> !Failure(replies[i]))
  }

  /** What the fold makes of step k: done, or where the last reply left it, or not reached. */
  function StepMeaning(replies: seq<Reply>, k: nat): StepStatus {
    if k < Successes(replies) then Succeeded
    else if k == Successes(replies) && replies != [] && replies[|replies| - 1].Waiting? then WaitingApproval
    else if k == Successes(replies) && replies != [] && Failure(replies[|replies| - 1]) then PlanSteps.Failed
    else Pending
  }

  function StatusMeaning(n: nat, replies: seq<Reply>): MissionStatus {
    if replies == [] then Queued
    else if replies[|replies| - 1].Waiting? then AwaitingApproval
    else if Failure(replies[|replies| - 1]) then Abandoned
    else if Successes(replies) == n then Completed
    else InProgress
  }

  /** A mission that stands exactly where the fold over its replies puts it. */
  ghost predicate Folded(m: Mission, replies: seq<Reply>) {
    && m.Consistent() && Possible(|m.plan|, replies)
    && m.status == StatusMeaning(|m.plan|, replies)
    && forall k :: 0 <= k < |m.steps| ==> m.steps[k] == StepMeaning(replies, k)
  }

  /** Calls that can still be made before a mission waits, fails or completes. */
  function Remaining(m: Mission, replies: seq<Reply>): int {
    if m.status == Queued || m.status == InProgress then 1 + |m.plan| - Successes(replies) else 0
  }

  lemma Extended(replies: seq<Reply>, r: Reply)
    ensures Successes(replies + [r]) == Successes(replies) + (if Success(r) then 1 else 0)
    ensures forall i :: 0 <= i <= |replies| ==> StepOf(replies + [r], i) == StepOf(replies, i)
  {
    assert (replies + [r])[..|replies|] == replies;
    forall i | 0 <= i <= |replies|
      ensures (replies + [r])[..i] == replies[..i]
    {
    }
  }

  /** The first incomplete step of a folded mission is the one after its successes. */
  lemma FirstIncompleteOfFold(m: Mission, replies: seq<Reply>)
    requires Folded(m, replies)
    ensures Successes(replies) <= |m.plan|
    ensures FirstIncomplete(m.steps) == Successes(replies)
  {
    if replies != [] {
      var last := |replies| - 1;
      assert StepOf(replies, last) < |m.plan|;
    }
    FirstIncompleteIs(m.steps, Successes(replies));
  }

  /** The status a reply gives the step it answers. */
  function StepAfter(r: Reply): StepStatus {
    if Success(r) then Succeeded else if r.Waiting? then WaitingApproval else PlanSteps.Failed
  }

  /** The replies still belong to an execution of the plan after one more. */
  lemma PossibleExtends(n: nat, replies: seq<Reply>, r: Reply)
    requires Possible(n, replies) && Successes(replies) < n
    requires replies != [] ==> !Failure(replies[|replies| - 1])
    ensures Possible(n, replies + [r])
  {
    hide Successes;
    Extended(replies, r);
    var all := replies + [r];
    forall i | 0 <= i < |all|
      ensures StepOf(all, i) < n && (i + 1 < |all| ==> !Failure(all[i]))
    {
      assert StepOf(all, i) == StepOf(replies, i);
      if i == |replies| {
        assert replies[..i] == replies;
      }
    }
  }

  lemma StepMeaningExtends(replies: seq<Reply>, r: Reply, k: nat)
    ensures StepMeaning(replies + [r], k)
            == if k == Successes(replies) then StepAfter(r)
               else if k < Successes(replies) then Succeeded else Pending
  {
  }

  lemma StatusMeaningExtends(n: nat, replies: seq<Reply>, r: Reply)
    ensures StatusMeaning(n, replies + [r])
            == if r.Waiting? then AwaitingApproval
               else if Failure(r) then Abandoned
               else if Successes(replies) + 1 == n then Completed else InProgress
  {
  }

  /** One more reply for the first incomplete step moves the mission one step along the fold. */
  lemma FoldExtends(m: Mission, replies: seq<Reply>, r: Reply, m': Mission)
    requires Folded(m, replies) && Successes(replies) < |m.plan|
    requires replies != [] ==> !Failure(replies[|replies| - 1])
    requires m'.plan == m.plan && m'.Consistent()
    requires m'.steps == m.steps[Successes(replies) := StepAfter(r)]
    requires m'.status == if r.Waiting? then AwaitingApproval
                          else if Failure(r) then Abandoned
                          else if Successes(replies) + 1 == |m.plan| then Completed else InProgress
    ensures Folded(m', replies + [r])
  {
    PossibleExtends(|m.plan|, replies, r);
    StatusMeaningExtends(|m.plan|, replies, r);
    forall k | 0 <= k < |m'.steps|
      ensures m'.steps[k] == StepMeaning(replies + [r], k)
    {
      hide Successes, Possible;
      StepMeaningExtends(replies, r, k);
      assert m.steps[k] == StepMeaning(replies, k);
    }
    hide Successes, Possible, StepMeaning, StatusMeaning;
  }

  /** COMPLETED is reached exactly when every step of a non-empty plan has succeeded. */
  lemma CompletedExactlyWhenAllSucceed(m: Mission, replies: seq<Reply>)
    requires Folded(m, replies) && |m.plan| > 0
    ensures m.status == Completed <==> forall k :: 0 <= k < |m.steps| ==> m.steps[k] == Succeeded
    ensures m.status == Completed <==> Successes(replies) == |m.plan|
  {
    FirstIncompleteOfFold(m, replies);
    if replies != [] {
      var last := |replies| - 1;
      assert StepOf(replies, last) < |m.plan|;
      assert StepOf(replies, last) == Successes(replies[..last]);
    }
    if Successes(replies) < |m.plan| {
      assert m.steps[Successes(replies)] != Succeeded;
    }
  }

  /** Requests go out in position order; one position is repeated only right after it was sent to wait. */
  lemma {:induction false} RequestsAreInOrder(n: nat, replies: seq<Reply>, i: nat)
    requires Possible(n, replies) && i < |replies|
    ensures StepOf(replies, 0) == 0
    ensures i + 1 < |replies| ==>
              StepOf(replies, i + 1) == (if replies[i].Waiting? then StepOf(replies, i) else StepOf(replies, i) + 1)
  {
    assert replies[..i + 1][..i] == replies[..i];
  }

  // ---------- the service ----------

  class MissionService {
    var missions: seq<Mission>

    ghost predicate Valid()
      reads this
    {
      forall i :: 0 <= i < |missions| ==> missions[i].Consistent()
    }

    constructor ()
      ensures missions == [] && Valid()
    {
      missions := [];
    }

    method CreateMission(idText: string, agent: string, risk: Risk) returns (id: nat)
      requires Valid()
      modifies this
      ensures Valid() && id == |old(missions)|
      ensures missions == old(missions) + [Mission(idText, agent, risk, Queued, [], [], [])]
    {
      id := |missions|;
      missions := missions + [Mission(idText, agent, risk, Queued, [], [], [])];
    }

    /** A plan is created once and not empty, with every tool registered when a registry is given. */
    method CreatePlan(id: nat, tasks: seq<Task>, registry: Option<set<string>>) returns (r: Result<()>)
      requires Valid()
      modifies this
      ensures Valid()
      ensures r.Ok? <==>
              && tasks != []
              && (registry.Some? ==> forall i :: 0 <= i < |tasks| ==> tasks[i].tool in registry.value)
              && id < |old(missions)| && old(missions[id].plan) == []
      ensures r.Err? ==> missions == old(missions)
      ensures r.Ok? ==>
                missions == old(missions)[id := old(missions[id]).(plan := tasks, steps := seq(|tasks|, _ => Pending),
                                                                   references := seq(|tasks|, _ => None))]
    {
      if tasks == [] {
        return Err(ValueError);
      }
      if registry.Some? {
        for i := 0 to |tasks|
          invariant forall j :: 0 <= j < i ==> tasks[j].tool in registry.value
        {
          if tasks[i].tool !in registry.value {
            return Err(ValueError);
          }
        }
      }
      if id >= |missions| {
        return Err(KeyError);
      }
      if missions[id].plan != [] {
        return Err(ValueError);
      }
      missions := missions[id := missions[id].(plan := tasks, steps := seq(|tasks|, _ => Pending),
                                               references := seq(|tasks|, _ => None))];
      r := Ok(());
    }

    /** Claims the first incomplete step, and only while it is still pending. */
    method ClaimNextPendingStep(id: nat) returns (claimed: Option<nat>)
      requires Valid()
      modifies this
      ensures Valid()
      ensures id >= |old(missions)| ==> claimed == None && missions == old(missions)
      ensures id < |old(missions)| ==>
                var k := FirstIncomplete(old(missions[id].steps));
                if k < |old(missions[id].steps)| && old(missions[id].steps)[k] == Pending
                then claimed == Some(k)
                     && missions == old(missions)[id := old(missions[id]).(steps := old(missions[id].steps)[k := Running])]
                else claimed == None && missions == old(missions)
    {
      if id >= |missions| {
        return None;
      }
      var steps := missions[id].steps;
      var first := 0;
      while first < |steps| && steps[first] == Succeeded
        invariant first <= |steps| && forall i :: 0 <= i < first ==> steps[i] == Succeeded
      {
        first := first + 1;
      }
      FirstIncompleteIs(steps, first);
      if first == |steps| || steps[first] != Pending {
        return None;
      }
      missions := missions[id := missions[id].(steps := steps[first := Running])];
      claimed := Some(first);
    }

    method WaitingApprovalStep(id: nat) returns (r: Result<Option<nat>>)
      ensures id >= |missions| ==> r == Err(KeyError)
      ensures id < |missions| ==>
                var w := FirstWaiting(missions[id].steps);
                r == Ok(if w < |missions[id].steps| then Some(w) else None)
    {
      if id >= |missions| {
        return Err(KeyError);
      }
      var steps := missions[id].steps;
      var i := 0;
      while i < |steps| && steps[i] != WaitingApproval
        invariant i <= |steps| && forall j :: 0 <= j < i ==> steps[j] != WaitingApproval
      {
        i := i + 1;
      }
      FirstWaitingIs(steps, i);
      r := Ok(if i < |steps| then Some(i) else None);
    }

    /** Moves step k of a mission if the transition table allows it; the approval reference is kept unless given. */
    method TransitionStep(id: nat, k: nat, to: StepStatus, reference: Option<nat>) returns (r: Result<()>)
      requires Valid()
      modifies this
      ensures Valid()
      ensures r == Err(KeyError) <==> id >= |old(missions)| || k >= |old(missions)[id].steps|
      ensures r.Ok? <==> id < |old(missions)| && k < |old(missions)[id].steps| && CanMove(old(missions)[id].steps[k], to)
      ensures missions == if r.Err? then old(missions)
                          else old(missions)[id := old(missions)[id].(
                                 steps := old(missions)[id].steps[k := to],
                                 references := if reference.Some? then old(missions)[id].references[k := reference]
                                               else old(missions)[id].references)]
    {
      if id >= |missions| || k >= |missions[id].steps| {
        return Err(KeyError);
      }
      if !CanMove(missions[id].steps[k], to) {
        return Err(ValueError);
      }
      var m := missions[id].(steps := missions[id].steps[k := to]);
      if reference.Some? {
        m := m.(references := m.references[k := reference]);
      }
      missions := missions[id := m];
      r := Ok(());
    }

    method PlanIsComplete(id: nat) returns (r: Result<bool>)
      ensures r.Err? <==> id >= |missions|
      ensures r.Ok? ==>
                (r.value <==> missions[id].steps != [] && forall k :: 0 <= k < |missions[id].steps| ==> missions[id].steps[k] == Succeeded)
    {
      if id >= |missions| {
        return Err(KeyError);
      }
      var steps := missions[id].steps;
      var complete := steps != [];
      for i := 0 to |steps|
        invariant complete <==> steps != [] && forall k :: 0 <= k < i ==> steps[k] == Succeeded
      {
        if steps[i] != Succeeded {
          complete := false;
        }
      }
      r := Ok(complete);
    }

    method Transition(id: nat, to: MissionStatus) returns (r: Result<()>)
      requires Valid()
      modifies this
      ensures Valid()
      ensures r == Err(KeyError) <==> id >= |old(missions)|
      ensures r.Ok? <==> id < |old(missions)| && CanBecome(old(missions)[id].status, to)
      ensures id < |old(missions)| && old(missions)[id].status in {Completed, Abandoned, Cancelled} ==> r.Err?
      ensures missions == if r.Err? then old(missions) else old(missions)[id := old(missions)[id].(status := to)]
    {
      if id >= |missions| {
        return Err(KeyError);
      }
      if !CanBecome(missions[id].status, to) {
        return Err(ValueError);
      }
      missions := missions[id := missions[id].(status := to)];
      r := Ok(());
    }
  }

  lemma FirstWaitingIs(steps: seq<StepStatus>, k: nat)
    requires k <= |steps| && (forall i :: 0 <= i < k ==> steps[i] != WaitingApproval)
    requires k < |steps| ==> steps[k] == WaitingApproval
    ensures FirstWaiting(steps) == k
  {
  }
}
