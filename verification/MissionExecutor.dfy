/**
 The mission executor (src/ai_hq/missions/executor.py): one plan step per call, every action through the
 gateway. A mission whose calls all went through `RunNext` and `ResumeApproved` stands exactly where the
 in-order fold over the gateway's replies puts it.
 */
module MissionExecutor {
  import opened Prelude
  import opened SafetyPolicy
  import opened PlanSteps
  import opened Missions
  import opened Gateway
  import Authority
  import Runs

  datatype Outcome = Outcome(status: MissionStatus, step: Option<(nat, StepStatus)>, reply: Option<Reply>)

  predicate Terminal(status: MissionStatus) {
    status in {Completed, Abandoned, MissionStatus.Cancelled}
  }

  predicate AllSucceeded(steps: seq<StepStatus>) {
    steps != [] && forall k :: 0 <= k < |steps| ==> steps[k] == Succeeded
  }

  predicate HeldForApproval(m: Mission) {
    m.status == AwaitingApproval && FirstWaiting(m.steps) < |m.steps|
  }

  /** The step the next call sends to the gateway, if any. */
  function NextStep(m: Mission): (k: Option<nat>)
    ensures k.Some? ==> k.value < |m.steps| && m.steps[k.value] == Pending
  {
    var first := FirstIncomplete(m.steps);
    if Terminal(m.status) || HeldForApproval(m) || first == |m.steps| || m.steps[first] != Pending then None
    else Some(first)
  }

  /** A mission whose step k has been claimed. */
  function Claimed(m: Mission, k: nat): Mission
    requires k < |m.steps|
  {
    m.(status := if m.status == Queued then InProgress else m.status, steps := m.steps[k := Running])
  }

  /** The mission status a reply asks for; None when it asks for no change. */
  function Wanted(m: Mission, k: nat, r: Reply): Option<MissionStatus>
    requires k < |m.steps|
  {
    if r.Waiting? then Some(AwaitingApproval)
    else if Failure(r) then Some(Abandoned)
    else if AllSucceeded(m.steps[k := Succeeded]) then Some(Completed)
    else None
  }

  /** What settling reply r for the running step k makes of a mission: a refused transition leaves its status alone. */
  function Advanced(m: Mission, k: nat, r: Reply): Mission
    requires m.Consistent() && k < |m.steps|
  {
    var wanted := Wanted(m, k, r);
    m.(steps := m.steps[k := StepAfter(r)],
       references := if r.Waiting? then m.references[k := Some(r.approvalId)] else m.references,
       status := if wanted.Some? && CanBecome(m.status, wanted.value) then wanted.value else m.status)
  }

  /** The mission with step k under execution. */
  function InExecution(m: Mission, k: nat): Mission
    requires k < |m.steps|
  {
    m.(status := InProgress, steps := m.steps[k := Running])
  }

  predicate Accepted(m: Mission, k: nat, r: Reply)
    requires k < |m.steps|
  {
    var wanted := Wanted(m, k, r);
    wanted.Some? ==> CanBecome(m.status, wanted.value)
  }

  ghost function NoMission(): Mission {
    Mission("", "", Green, Queued, [], [], [])
  }

  predicate Runnable(m: Mission) {
    m.status in {Queued, InProgress} && m.plan != []
  }

  /** A step is sent exactly when its mission is not over and not held, all before it have succeeded, and it is pending. */
  lemma NextStepMeans(m: Mission, k: nat)
    ensures NextStep(m) == Some(k) <==>
            && m.status !in {Completed, Abandoned, MissionStatus.Cancelled}
            && !(m.status == AwaitingApproval && WaitingApproval in m.steps)
            && k < |m.steps| && m.steps[k] == Pending
            && forall i :: 0 <= i < k ==> m.steps[i] == Succeeded
  {
    hide FirstIncomplete, FirstWaiting;
    if k < |m.steps| && m.steps[k] == Pending && forall i :: 0 <= i < k ==> m.steps[i] == Succeeded {
      FirstIncompleteIs(m.steps, k);
    }
    var w := FirstWaiting(m.steps);
    assert w < |m.steps| ==> m.steps[w] in m.steps;
  }

  /** Each kind of reply writes its own statuses, and a refused mission transition leaves the mission's as it was. */
  lemma AdvancedMeans(m: Mission, k: nat, r: Reply)
    requires m.Consistent() && k < |m.steps|
    ensures var m' := Advanced(m, k, r);
            && (forall i :: 0 <= i < |m.steps| && i != k ==> m'.steps[i] == m.steps[i] && m'.references[i] == m.references[i])
            && (r == Authority.Executed || r == Authority.Simulated ==>
                  && m'.steps[k] == Succeeded && m'.references == m.references
                  && m'.status == if m.status == InProgress && (forall i :: 0 <= i < |m'.steps| ==> m'.steps[i] == Succeeded)
                                  then Completed else m.status)
            && (r == Authority.Blocked || r == Authority.Failed ==>
                  && m'.steps[k] == PlanSteps.Failed && m'.references == m.references
                  && m'.status == if m.status in {Queued, InProgress, AwaitingApproval, Paused} then Abandoned else m.status)
            && (r.Waiting? ==>
                  && m'.steps[k] == WaitingApproval && m'.references[k] == Some(r.approvalId)
                  && m'.status == if m.status == InProgress then AwaitingApproval else m.status)
  {
    var m' := Advanced(m, k, r);
    assert Success(r) ==> m'.steps == m.steps[k := Succeeded];
  }

  // ---------- refinement of the fold ----------

  /** The i-th reply belongs to a gateway call that carried the request of the i-th step of the fold. */
  ghost predicate SentAs(calls: seq<Authority.Call>, id: nat, m: Mission, replies: seq<Reply>, made: seq<nat>, i: nat)
    requires i < |replies| && i < |made|
  {
    && made[i] < |calls| && calls[made[i]].stage == Authority.Done(replies[i])
    && StepOf(replies, i) < |m.plan|
    && RequestFor(id, m, StepOf(replies, i)) == Some(calls[made[i]].request)
  }

  /** The mission's calls, in the order they were made, are the requests of the fold. */
  ghost predicate Sent(calls: seq<Authority.Call>, id: nat, m: Mission, replies: seq<Reply>, made: seq<nat>) {
    && |made| == |replies|
    && (forall i :: 0 <= i < |made| ==> SentAs(calls, id, m, replies, made, i))
    && (forall i, j :: 0 <= i < j < |made| ==> made[i] < made[j])
  }

  predicate SamePlan(m: Mission, m': Mission) {
    m'.plan == m.plan && m'.idText == m.idText && m'.agent == m.agent && m'.risk == m.risk
  }

  lemma SentExtends(calls: seq<Authority.Call>, calls': seq<Authority.Call>, id: nat, m: Mission, m': Mission,
                    replies: seq<Reply>, made: seq<nat>, r: Reply)
    requires Sent(calls, id, m, replies, made) && SamePlan(m, m')
    requires calls <= calls' && |calls'| == |calls| + 1 && calls'[|calls|].stage == Authority.Done(r)
    requires Successes(replies) < |m.plan|
    requires RequestFor(id, m, Successes(replies)) == Some(calls'[|calls|].request)
    ensures Sent(calls', id, m', replies + [r], made + [|calls|])
  {
    hide Successes;
    Extended(replies, r);
    var all, times := replies + [r], made + [|calls|];
    assert replies[..|replies|] == replies;
    forall i | 0 <= i < |times|
      ensures SentAs(calls', id, m', all, times, i)
    {
      assert StepOf(all, i) == StepOf(replies, i);
      if i < |made| {
        assert SentAs(calls, id, m, replies, made, i);
        assert calls'[made[i]] == calls[made[i]];
      }
    }
    forall i, j | 0 <= i < j < |times|
      ensures times[i] < times[j]
    {
      assert SentAs(calls, id, m, replies, made, i);
    }
  }

  /** Settling a reply for the step after the successes is one step of the fold. */
  lemma SettledIsFolded(m: Mission, replies: seq<Reply>, r: Reply)
    requires Folded(m, replies) && Successes(replies) < |m.plan|
    requires m.status in {Queued, InProgress, AwaitingApproval}
    ensures var k := Successes(replies);
            && Accepted(InExecution(m, k), k, r)
            && Folded(Advanced(InExecution(m, k), k, r), replies + [r])
  {
    hide Successes, Possible, FirstIncomplete;
    var k := Successes(replies);
    var steps := m.steps[k := Running][k := Succeeded];
    if k + 1 < |m.plan| {
      assert steps[k + 1] == StepMeaning(replies, k + 1);
    } else {
      forall j | 0 <= j < |steps|
        ensures steps[j] == Succeeded
      {
        assert j != k ==> steps[j] == StepMeaning(replies, j);
      }
    }
    assert AllSucceeded(steps) <==> k + 1 == |m.plan|;
    assert m.steps[k := Running][k := StepAfter(r)] == m.steps[k := StepAfter(r)];
    FoldExtends(m, replies, r, Advanced(InExecution(m, k), k, r));
  }

  lemma NextStepOfFold(m: Mission, replies: seq<Reply>)
    requires Folded(m, replies)
    ensures Successes(replies) <= |m.plan|
    ensures NextStep(m) == if m.status in {Queued, InProgress} && Successes(replies) < |m.plan|
                           then Some(Successes(replies)) else None
    ensures m.status == InProgress ==> Successes(replies) < |m.plan|
    ensures m.status == AwaitingApproval ==>
              HeldForApproval(m) && FirstWaiting(m.steps) == Successes(replies) < |m.plan|
  {
    hide Successes;
    FirstIncompleteOfFold(m, replies);
    var k := Successes(replies);
    if k < |m.plan| {
      assert m.steps[k] == StepMeaning(replies, k);
    }
    if replies != [] {
      LastStep(|m.plan|, replies);
    }
    if m.status == AwaitingApproval {
      FirstWaitingIs(m.steps, k);
    }
  }

  /** A step that waits refers to the approval its last reply named. */
  ghost predicate RefersToApproval(m: Mission, replies: seq<Reply>) {
    replies != [] && replies[|replies| - 1].Waiting? ==>
      Successes(replies) < |m.references| && m.references[Successes(replies)] == Some(replies[|replies| - 1].approvalId)
  }

  ghost predicate OnTrack(calls: seq<Authority.Call>, id: nat, m: Mission, replies: seq<Reply>, made: seq<nat>) {
    Folded(m, replies) && Sent(calls, id, m, replies, made) && RefersToApproval(m, replies)
  }

  /** One call for the next request of the fold keeps a mission on track and brings a runnable one nearer its end. */
  lemma Progress(calls: seq<Authority.Call>, calls': seq<Authority.Call>, id: nat, m: Mission,
                 replies: seq<Reply>, made: seq<nat>, r: Reply)
    requires OnTrack(calls, id, m, replies, made) && Successes(replies) < |m.plan|
    requires m.status in {Queued, InProgress, AwaitingApproval}
    requires calls <= calls' && |calls'| == |calls| + 1 && calls'[|calls|].stage == Authority.Done(r)
    requires RequestFor(id, m, Successes(replies)) == Some(calls'[|calls|].request)
    ensures var k := Successes(replies);
            var m' := Advanced(InExecution(m, k), k, r);
            && Accepted(InExecution(m, k), k, r)
            && OnTrack(calls', id, m', replies + [r], made + [|calls|])
            && (m.status != AwaitingApproval ==> Remaining(m', replies + [r]) < Remaining(m, replies))
  {
    hide Successes, Possible, FirstIncomplete, RequestFor;
    var k := Successes(replies);
    SettledIsFolded(m, replies, r);
    SentExtends(calls, calls', id, m, Advanced(InExecution(m, k), k, r), replies, made, r);
    Extended(replies, r);
  }

  /** Claiming the next step of a runnable mission puts it in execution with the same request. */
  lemma ClaimOfFold(id: nat, m: Mission, replies: seq<Reply>)
    requires Folded(m, replies)
    ensures Runnable(m) <==> NextStep(m).Some?
    ensures NextStep(m).Some? ==>
              var k := NextStep(m).value;
              && k == Successes(replies) < |m.plan| && m.status in {Queued, InProgress}
              && Claimed(m, k) == InExecution(m, k)
              && RequestFor(id, InExecution(m, k), k) == RequestFor(id, m, k)
    ensures NextStep(m).None? ==> Concluded(m) == m
  {
    hide Successes, FirstIncomplete;
    NextStepOfFold(m, replies);
    if m.status == Queued && m.plan != [] {
      FirstIncompleteOfFold(m, replies);
      QueuedHasNoReplies(|m.plan|, replies);
    }
    if AllSucceeded(m.steps) && m.plan != [] {
      CompletedExactlyWhenAllSucceed(m, replies);
    }
  }

  function LastSent(calls: seq<Authority.Call>, made: seq<nat>): Option<ToolRequest> {
    if made != [] && made[|made| - 1] < |calls| then Some(calls[made[|made| - 1]].request) else None
  }

  /** The last call carried the request of the step it left waiting. */
  lemma LastSentIsWaiting(calls: seq<Authority.Call>, id: nat, m: Mission, replies: seq<Reply>, made: seq<nat>)
    requires Sent(calls, id, m, replies, made) && replies != [] && replies[|replies| - 1].Waiting?
    ensures Successes(replies) < |m.plan| && LastSent(calls, made).Some?
    ensures RequestFor(id, m, Successes(replies)) == LastSent(calls, made)
  {
    hide RequestFor;
    var last := |replies| - 1;
    assert SentAs(calls, id, m, replies, made, last);
  }

  /** A mission that waits is held at the step after its successes, for the request of its last call. */
  lemma HeldOnTrack(calls: seq<Authority.Call>, id: nat, m: Mission, replies: seq<Reply>, made: seq<nat>)
    requires OnTrack(calls, id, m, replies, made)
    ensures HeldForApproval(m) <==> m.status == AwaitingApproval
    ensures m.status == AwaitingApproval ==>
              var k := Successes(replies);
              && k == FirstWaiting(m.steps) < |m.plan| && LastSent(calls, made).Some?
              && RequestFor(id, m, k) == LastSent(calls, made)
              && RequestFor(id, InExecution(m, k), k) == RequestFor(id, m, k)
  {
    hide Successes, FirstWaiting, FirstIncomplete, Sent, Possible, StepMeaning, LastSent;
    NextStepOfFold(m, replies);
    if m.status == AwaitingApproval {
      LastSentIsWaiting(calls, id, m, replies, made);
    }
  }

  /** A reply other than waiting takes a mission in execution somewhere else than to wait. */
  lemma LeavesWaiting(m: Mission, k: nat, r: Reply)
    requires m.Consistent() && k < |m.steps|
    ensures Advanced(InExecution(m, k), k, r).status == AwaitingApproval <==> r.Waiting?
  {
  }

  /** The i-th call of a tracked mission carries, field by field, the task of the step it was made for. */
  lemma CallCarriesTask(calls: seq<Authority.Call>, id: nat, m: Mission, replies: seq<Reply>, made: seq<nat>, i: nat)
    requires OnTrack(calls, id, m, replies, made) && i < |replies|
    ensures i < |made| && made[i] < |calls| && StepOf(replies, i) < |m.plan|
    ensures Carries(calls[made[i]].request, id, m, StepOf(replies, i))
    ensures calls[made[i]].stage == Authority.Done(replies[i])
  {
    hide RequestFor, Successes;
    assert SentAs(calls, id, m, replies, made, i);
    RequestCarriesTask(id, m, StepOf(replies, i));
  }

  lemma NeverWaitsAgain(s: Authority.Store, q: ToolRequest, adapterSucceeds: bool, reply: Reply)
    requires ReplyFor(s, q, adapterSucceeds, reply)
    ensures (exists i :: 0 <= i < |s.approvals| && Authority.Approves(s.approvals[i], q.mission, RequestFingerprint(q), s.now))
            ==> !reply.Waiting?
  {
  }

  /** A mission that has just been given its plan is on track with no reply. */
  lemma NewPlanIsOnTrack(calls: seq<Authority.Call>, id: nat, m: Mission)
    requires m.Consistent() && m.status == Queued && forall k :: 0 <= k < |m.steps| ==> m.steps[k] == Pending
    ensures OnTrack(calls, id, m, [], [])
  {
  }

  /** Later gateway calls do not take a mission off its track. */
  lemma StaysOnTrack(calls: seq<Authority.Call>, calls': seq<Authority.Call>, id: nat, m: Mission, replies: seq<Reply>, made: seq<nat>)
    requires OnTrack(calls, id, m, replies, made) && calls <= calls'
    ensures OnTrack(calls', id, m, replies, made)
  {
    hide Folded, RefersToApproval, RequestFor, Successes;
    forall i | 0 <= i < |made|
      ensures SentAs(calls', id, m, replies, made, i)
    {
      assert SentAs(calls, id, m, replies, made, i);
    }
  }

  lemma QueuedHasNoReplies(n: nat, replies: seq<Reply>)
    requires StatusMeaning(n, replies) == Queued
    ensures replies == [] && Successes(replies) == 0
  {
  }

  /** A last reply other than a success leaves its step unfinished. */
  lemma LastStep(n: nat, replies: seq<Reply>)
    requires Possible(n, replies) && replies != []
    ensures Successes(replies) <= n && (!Success(replies[|replies| - 1]) ==> Successes(replies) < n)
  {
  }

  class Executor {
    const missions: MissionService
    const gateway: ToolGateway
    ghost var replies: map<nat, seq<Reply>>
    ghost var made: map<nat, seq<nat>>

    ghost predicate Valid()
      reads this, missions, gateway, gateway.safety, gateway.approvals
    {
      missions.Valid() && gateway.Valid()
    }

    ghost function Replies(id: nat): seq<Reply>
      reads this
    {
      if id in replies then replies[id] else []
    }

    ghost function Made(id: nat): seq<nat>
      reads this
    {
      if id in made then made[id] else []
    }

    /** The mission stands where its replies put it, and its calls are the requests of the fold. */
    ghost predicate Tracked(id: nat)
      reads this, missions, gateway
    {
      && id < |missions.missions|
      && OnTrack(gateway.calls, id, missions.missions[id], Replies(id), Made(id))
    }

    constructor (missions: MissionService, gateway: ToolGateway)
      requires missions.Valid() && gateway.Valid()
      ensures Valid() && this.missions == missions && this.gateway == gateway && replies == map[] && made == map[]
    {
      this.missions, this.gateway, replies, made := missions, gateway, map[], map[];
    }

    /**
     In a tracked mission, a step whose task mutates and whose call reached an adapter was evaluated in NORMAL mode, and
     a human had approved exactly its tool, target and parameters or, for BLUE, a rule made for it was consumed.
     */
    lemma MutatingStepIsAuthorised(id: nat, i: nat)
      requires Valid() && Tracked(id) && i < |Replies(id)|
      requires Replies(id)[i] == Authority.Executed || Replies(id)[i] == Authority.Failed
      ensures i < |Made(id)| && Made(id)[i] < |gateway.calls|
      ensures var m := missions.missions[id];
              var k := StepOf(Replies(id), i);
              var c := gateway.calls[Made(id)[i]];
              && k < |m.plan| && Carries(c.request, id, m, k)
              && (m.plan[k].mutates ==>
                    && Authority.EvaluatedInNormalMode(c)
                    && (|| Authority.HumanApproved(gateway.View(), c)
                        || (m.risk == Blue && Authority.RuleConsumed(gateway.View(), c))))
    {
      hide RequestFor, Successes, Runs.Replay, Authority.Apply;
      CallCarriesTask(gateway.calls, id, missions.missions[id], Replies(id), Made(id), i);
      gateway.Sound();
      assert Authority.CallSound(gateway.View(), gateway.calls[Made(id)[i]]);
      Authority.InvokedIsAuthorised(gateway.View(), Made(id)[i]);
    }

    /** Records the answered call of a step in the mission's ghost log. */
    ghost method LogReply(id: nat, r: Reply, at: nat)
      modifies this
      ensures Replies(id) == old(Replies(id)) + [r] && Made(id) == old(Made(id)) + [at]
      ensures forall other :: other != id ==> Replies(other) == old(Replies(other)) && Made(other) == old(Made(other))
    {
      replies, made := replies[id := Replies(id) + [r]], made[id := Made(id) + [at]];
    }

    /** Writes the step's status, then the mission's if the reply asks for one. */
    method Settle(id: nat, k: nat, reply: Reply) returns (r: Result<Outcome>)
      requires missions.Valid() && id < |missions.missions|
      requires k < |missions.missions[id].steps| && missions.missions[id].steps[k] == Running
      modifies missions
      ensures missions.Valid()
      ensures missions.missions == old(missions.missions)[id := Advanced(old(missions.missions[id]), k, reply)]
      ensures r == if Accepted(old(missions.missions[id]), k, reply)
                   then Ok(Outcome(missions.missions[id].status, Some((k, StepAfter(reply))), Some(reply)))
                   else Err(ValueError)
    {
      var moved;
      if reply.Waiting? {
        var _ := missions.TransitionStep(id, k, WaitingApproval, Some(reply.approvalId));
        moved := missions.Transition(id, AwaitingApproval);
      } else if reply.Executed? || reply.Simulated? {
        var _ := missions.TransitionStep(id, k, Succeeded, None);
        moved := Ok(());
        var complete := missions.PlanIsComplete(id);
        if complete == Ok(true) {
          moved := missions.Transition(id, Completed);
        }
      } else {
        var _ := missions.TransitionStep(id, k, PlanSteps.Failed, None);
        moved := missions.Transition(id, Abandoned);
      }
      r := if moved.Ok? then Ok(Outcome(missions.missions[id].status, Some((k, StepAfter(reply))), Some(reply)))
           else Err(ValueError);
    }

    /** Sends the running step k through the gateway once and settles the reply. */
    method Send(id: nat, k: nat, adapterSucceeds: bool) returns (r: Result<Outcome>)
      requires Valid() && id < |missions.missions|
      requires k < |missions.missions[id].steps| && missions.missions[id].steps[k] == Running
      modifies this, missions, gateway`calls, gateway`history, gateway.approvals`approvals, gateway.approvals`rules
      ensures Valid()
      ensures Performed(id, old(missions.missions[id]), k, adapterSucceeds, r) && OthersUntouched(id)
    {
      hide Authority.FindRule, Authority.Verdict, Advanced, Accepted, Runs.Replay, Authority.Apply, ReplyFor;
      var m := missions.missions[id];
      var request := RequestFor(id, m, k);
      if request.None? {
        return Err(ValueError);
      }
      ghost var at := |gateway.calls|;
      var reply := gateway.Execute(request.value, adapterSucceeds);
      r := Settle(id, k, reply);
      LogReply(id, reply, at);
    }

    /** Claims the first incomplete step if it is pending; a QUEUED mission starts running with it. */
    method Claim(id: nat) returns (step: Option<nat>)
      requires missions.Valid() && id < |missions.missions| && !Terminal(missions.missions[id].status)
      requires !HeldForApproval(missions.missions[id])
      modifies missions
      ensures missions.Valid() && step == NextStep(old(missions.missions[id]))
      ensures missions.missions == if step.None? then old(missions.missions)
                                   else old(missions.missions)[id := Claimed(old(missions.missions[id]), step.value)]
    {
      hide FirstIncomplete, FirstWaiting;
      step := missions.ClaimNextPendingStep(id);
      if step.Some? && missions.missions[id].status == Queued {
        var _ := missions.Transition(id, InProgress);
      }
    }

    /** Everything but mission `id` is as it was, except that the gateway may have made more calls. */
    twostate predicate OthersUntouched(id: nat)
      reads this, missions, gateway
    {
      && old(gateway.calls) <= gateway.calls && |missions.missions| == |old(missions.missions)|
      && forall other: nat :: other != id ==>
           && Replies(other) == old(Replies(other)) && Made(other) == old(Made(other))
           && (other < |missions.missions| ==> missions.missions[other] == old(missions.missions)[other])
    }

    /** What `RunNext` does to any mission, tracked or not. */
    twostate predicate DidRunNext(id: nat, adapterSucceeds: bool, new r: Result<Outcome>)
      requires old(missions.Valid())
      reads this, missions, gateway, gateway.safety, gateway.approvals
    {
      if id >= |old(missions.missions)| then r == Err(KeyError) && NothingSent() && missions.missions == old(missions.missions)
      else
        var m := old(missions.missions[id]);
        var k := NextStep(m);
        if k.Some? then Performed(id, Claimed(m, k.value), k.value, adapterSucceeds, r)
        else
          && NothingSent()
          && missions.missions == old(missions.missions)[id := Concluded(m)]
          && r == Ok(Outcome(Concluded(m).status,
                             if HeldForApproval(m) then Some((FirstWaiting(m.steps), WaitingApproval)) else None, None))
    }

    /** Neither over nor held for approval: claims a step and sends it, or concludes the plan. */
    method Proceed(id: nat, adapterSucceeds: bool) returns (r: Result<Outcome>)
      requires Valid() && id < |missions.missions| && !Terminal(missions.missions[id].status) && !HeldForApproval(missions.missions[id])
      modifies this, missions, gateway`calls, gateway`history, gateway.approvals`approvals, gateway.approvals`rules
      ensures Valid() && DidRunNext(id, adapterSucceeds, r) && OthersUntouched(id)
    {
      hide Advanced, Accepted, FirstIncomplete, FirstWaiting, Runs.Replay, ReplyFor, RequestFor, Authority.Apply, Awaited,
           Terminal, HeldForApproval, NextStep;
      var step := Claim(id);
      if step.None? {
        r := Finish(id);
      } else {
        r := Send(id, step.value, adapterSucceeds);
      }
    }

    method Next(id: nat, adapterSucceeds: bool) returns (r: Result<Outcome>)
      requires Valid()
      modifies this, missions, gateway`calls, gateway`history, gateway.approvals`approvals, gateway.approvals`rules
      ensures Valid() && DidRunNext(id, adapterSucceeds, r) && OthersUntouched(id)
    {
      hide Advanced, Accepted, FirstIncomplete, FirstWaiting, Runs.Replay, ReplyFor, RequestFor, Authority.Apply, Awaited;
      if id >= |missions.missions| {
        return Err(KeyError);
      }
      var status := missions.missions[id].status;
      if Terminal(status) {
        return Ok(Outcome(status, None, None));
      }
      if status == AwaitingApproval {
        var waiting := missions.WaitingApprovalStep(id);
        if waiting.value.Some? {
          return Ok(Outcome(status, Some((waiting.value.value, WaitingApproval)), None));
        }
      }
      r := Proceed(id, adapterSucceeds);
    }

    /**
     Advances a mission by exactly one step. A tracked mission stays tracked: one more request of the fold is
     sent while it is QUEUED or RUNNING, and nothing is sent otherwise.
     */
    method RunNext(id: nat, adapterSucceeds: bool) returns (r: Result<Outcome>)
      requires Valid()
      modifies this, missions, gateway`calls, gateway`history, gateway.approvals`approvals, gateway.approvals`rules
      ensures Valid() && DidRunNext(id, adapterSucceeds, r)
      ensures OthersUntouched(id)
      ensures old(Tracked(id)) ==> OneFoldStep(id, adapterSucceeds, r)
    {
      hide Successes, FirstWaiting, Advanced, Accepted, Runs.Replay, ReplyFor, Authority.Apply, Sent, RefersToApproval,
           Remaining, NextStep, Claimed, Concluded, InExecution, RequestFor, Carries, Runnable, Folded, HeldForApproval, Awaited, OthersUntouched;
      ghost var tracked, m, replies, made := Tracked(id), if id < |missions.missions| then missions.missions[id] else NoMission(), Replies(id), Made(id);
      ghost var calls := gateway.calls;
      r := Next(id, adapterSucceeds);
      if tracked {
        ClaimOfFold(id, m, replies);
        if Successes(replies) < |m.plan| {
          RequestCarriesTask(id, m, Successes(replies));
        }
        if |Replies(id)| > |replies| {
          Progress(calls, gateway.calls, id, m, replies, made, LastReply());
        }
      }
    }

    /** The request of the first step that has not succeeded. */
    ghost function NextRequest(id: nat): Option<ToolRequest>
      reads this, missions
      requires id < |missions.missions|
    {
      var k := Successes(Replies(id));
      if k < |missions.missions[id].plan| then RequestFor(id, missions.missions[id], k) else None
    }

    /**
     A runnable mission makes exactly one call, for the next request of its fold, and has less left to do; it
     fails only if that request cannot be built. Any other mission is left alone.
     */
    twostate predicate OneFoldStep(id: nat, adapterSucceeds: bool, new r: Result<Outcome>)
      requires id < |old(missions.missions)|
      reads this, missions, gateway, gateway.safety, gateway.approvals
    {
      var m, q := old(missions.missions[id]), old(NextRequest(id));
      if !Runnable(m) then r.Ok? && NothingSent() && missions.missions == old(missions.missions) && Tracked(id)
      else if q.None? then r == Err(ValueError) && NothingSent()
      else
        && r.Ok? && CallMade(id, q.value, adapterSucceeds) && Tracked(id)
        && Successes(old(Replies(id))) < |m.plan| && Carries(q.value, id, m, Successes(old(Replies(id))))
        && Remaining(missions.missions[id], Replies(id)) < Remaining(m, old(Replies(id)))
    }

    /** No step was claimed: a QUEUED or RUNNING mission whose steps have all succeeded is completed. */
    method Finish(id: nat) returns (r: Result<Outcome>)
      requires missions.Valid() && id < |missions.missions| && !Terminal(missions.missions[id].status)
      requires !HeldForApproval(missions.missions[id])
      modifies missions
      ensures missions.Valid()
      ensures missions.missions == old(missions.missions)[id := Concluded(old(missions.missions[id]))]
      ensures r == Ok(Outcome(missions.missions[id].status, None, None))
    {
      var complete := missions.PlanIsComplete(id);
      if complete == Ok(true) {
        if missions.missions[id].status == Queued {
          var _ := missions.Transition(id, InProgress);
        }
        if missions.missions[id].status == InProgress {
          var _ := missions.Transition(id, Completed);
        }
      }
      r := Ok(Outcome(missions.missions[id].status, None, None));
    }

    /** What `ResumeApproved` does to any mission: only one that is held for approval is touched. */
    twostate predicate DidResume(id: nat, adapterSucceeds: bool, new r: Result<Outcome>)
      requires old(missions.Valid())
      reads this, missions, gateway, gateway.safety, gateway.approvals
    {
      if id >= |old(missions.missions)| || !HeldForApproval(old(missions.missions[id])) then
        && r == Err(if id >= |old(missions.missions)| then KeyError else ValueError)
        && NothingSent() && missions.missions == old(missions.missions)
      else
        var m := old(missions.missions[id]);
        var k := FirstWaiting(m.steps);
        Performed(id, InExecution(m, k), k, adapterSucceeds, r)
    }

    method Reopen(id: nat, k: nat)
      requires missions.Valid() && id < |missions.missions| && missions.missions[id].status == AwaitingApproval
      requires k < |missions.missions[id].steps| && missions.missions[id].steps[k] == WaitingApproval
      modifies missions
      ensures missions.Valid() && missions.missions == old(missions.missions)[id := InExecution(old(missions.missions[id]), k)]
    {
      var _ := missions.TransitionStep(id, k, Running, None);
      var _ := missions.Transition(id, InProgress);
    }

    method Represent(id: nat, k: nat, adapterSucceeds: bool) returns (r: Result<Outcome>)
      requires Valid() && id < |missions.missions| && missions.missions[id].status == AwaitingApproval
      requires k < |missions.missions[id].steps| && missions.missions[id].steps[k] == WaitingApproval
      modifies this, missions, gateway`calls, gateway`history, gateway.approvals`approvals, gateway.approvals`rules
      ensures Valid() && OthersUntouched(id)
      ensures Performed(id, InExecution(old(missions.missions[id]), k), k, adapterSucceeds, r)
    {
      hide Advanced, Accepted, Runs.Replay, ReplyFor, RequestFor, Authority.Apply, Awaited;
      Reopen(id, k);
      r := Send(id, k, adapterSucceeds);
    }

    /** Puts the waiting step back to RUNNING and presents its request to the gateway again. */
    method Resume(id: nat, adapterSucceeds: bool) returns (r: Result<Outcome>)
      requires Valid()
      modifies this, missions, gateway`calls, gateway`history, gateway.approvals`approvals, gateway.approvals`rules
      ensures Valid() && DidResume(id, adapterSucceeds, r) && OthersUntouched(id)
    {
      hide Advanced, Accepted, FirstIncomplete, FirstWaiting, Runs.Replay, ReplyFor, RequestFor, Authority.Apply, Awaited;
      if id >= |missions.missions| {
        return Err(KeyError);
      }
      if missions.missions[id].status != AwaitingApproval {
        return Err(ValueError);
      }
      var step := missions.WaitingApprovalStep(id);
      if step.value.None? {
        return Err(ValueError);
      }
      r := Represent(id, step.value.value, adapterSucceeds);
    }

    /**
     Resuming a tracked mission held for approval presents exactly the request it waited with, once more, and the
     fold continues; with an unexpired human approval of that request it does not go back to waiting.
     */
    method ResumeApproved(id: nat, adapterSucceeds: bool) returns (r: Result<Outcome>)
      requires Valid()
      modifies this, missions, gateway`calls, gateway`history, gateway.approvals`approvals, gateway.approvals`rules
      ensures Valid() && DidResume(id, adapterSucceeds, r)
      ensures OthersUntouched(id)
      ensures old(Tracked(id)) ==> SameRequestAgain(id, adapterSucceeds, r)
    {
      hide Successes, FirstWaiting, Advanced, Accepted, Runs.Replay, Authority.Apply, Sent, RefersToApproval, ReplyFor,
           InExecution, RequestFor, HeldForApproval, LastSent, NextStep, OthersUntouched, Awaited;
      ghost var tracked, m, replies, made :=
        Tracked(id), if id < |missions.missions| then missions.missions[id] else NoMission(), Replies(id), Made(id);
      ghost var calls := gateway.calls;
      r := Resume(id, adapterSucceeds);
      if tracked {
        HeldOnTrack(calls, id, m, replies, made);
        if m.status == AwaitingApproval {
          Progress(calls, gateway.calls, id, m, replies, made, LastReply());
          LeavesWaiting(m, Successes(replies), LastReply());
          NeverWaitsAgain(old(gateway.View()), LastSent(calls, made).value, adapterSucceeds, LastReply());
        }
      }
    }

    twostate predicate SameRequestAgain(id: nat, adapterSucceeds: bool, new r: Result<Outcome>)
      requires id < |old(missions.missions)|
      reads this, missions, gateway, gateway.safety, gateway.approvals
    {
      var q := old(LastSent(gateway.calls, Made(id)));
      if old(missions.missions[id]).status != AwaitingApproval then r.Err? && Tracked(id)
      else
        && r.Ok? && q.Some? && CallMade(id, q.value, adapterSucceeds) && Tracked(id)
        && (missions.missions[id].status == AwaitingApproval <==> LastReply().Waiting?)
        && (old(gateway.Approved(q.value)) ==> !LastReply().Waiting?)
    }

    /** The reply to the gateway's latest call. */
    ghost function LastReply(): Reply
      reads gateway
    {
      if gateway.calls != [] && gateway.calls[|gateway.calls| - 1].stage.Done?
      then gateway.calls[|gateway.calls| - 1].stage.reply else Authority.Blocked
    }

    /** Approval a is a pending, unexpired request for q. */
    ghost predicate Awaited(q: ToolRequest, a: nat)
      reads gateway, gateway.approvals
    {
      && a < |gateway.approvals.approvals|
      && Authority.Awaits(gateway.approvals.approvals[a], q.mission, RequestFingerprint(q), gateway.approvals.now)
    }

    twostate predicate NothingSent()
      reads this, gateway
    {
      gateway.calls == old(gateway.calls) && replies == old(replies) && made == old(made)
    }

    /** Exactly one gateway call was made, for request q, and its reply is the one the tables dictated. */
    twostate predicate CallMade(id: nat, q: ToolRequest, adapterSucceeds: bool)
      reads this, gateway, gateway.safety, gateway.approvals
    {
      && old(gateway.calls) <= gateway.calls && |gateway.calls| == |old(gateway.calls)| + 1
      && old(gateway.approvals.approvals) <= gateway.approvals.approvals
      && gateway.calls[|old(gateway.calls)|].request == q
      && gateway.calls[|old(gateway.calls)|].stage.Done?
      && ReplyFor(old(gateway.View()), q, adapterSucceeds, LastReply())
      && (LastReply().Waiting? && gateway.safety.lifetime > 0 ==> Awaited(q, LastReply().approvalId))
      && Replies(id) == old(Replies(id)) + [LastReply()] && Made(id) == old(Made(id)) + [|old(gateway.calls)|]
      && (forall other :: other != id ==> Replies(other) == old(Replies(other)) && Made(other) == old(Made(other)))
    }

    /** The running step k of mission m was sent once and its reply settled, or its request could not be built. */
    twostate predicate Performed(id: nat, m: Mission, k: nat, adapterSucceeds: bool, new r: Result<Outcome>)
      requires id < |old(missions.missions)| && m.Consistent() && k < |m.plan|
      reads this, missions, gateway, gateway.safety, gateway.approvals
    {
      var q := RequestFor(id, m, k);
      if q.None? then r == Err(ValueError) && NothingSent() && missions.missions == old(missions.missions)[id := m]
      else
        && CallMade(id, q.value, adapterSucceeds)
        && missions.missions == old(missions.missions)[id := Advanced(m, k, LastReply())]
        && r == (if !Accepted(m, k, LastReply()) then Err(ValueError)
                 else Ok(Outcome(missions.missions[id].status, Some((k, StepAfter(LastReply()))), Some(LastReply()))))
    }
  }

  /** What a call without a claimable step makes of a mission. */
  function Concluded(m: Mission): Mission {
    if m.status in {Queued, InProgress} && AllSucceeded(m.steps) then m.(status := Completed) else m
  }

  /** With the tables unchanged but for the approval, the request that had to wait is carried out or simulated. */
  lemma ApprovalCarriesThrough(s: Authority.Store, t: Authority.Store, q: ToolRequest, a: nat, first: Reply,
                               adapterSucceeds: bool, second: Reply)
    requires ReplyFor(s, q, adapterSucceeds, first) && first.Waiting?
    requires t.system == s.system && t.permissions == s.permissions && t.capabilities == s.capabilities
    requires a < |t.approvals| && Authority.Approves(t.approvals[a], q.mission, RequestFingerprint(q), t.now)
    requires ReplyFor(t, q, adapterSucceeds, second)
    ensures second in {Authority.Simulated, if adapterSucceeds then Authority.Executed else Authority.Failed}
  {
  }

  /** A human approves a pending request, and some time passes. */
  method ApproveLater(gateway: ToolGateway, asked: nat, ticks: nat)
    requires gateway.Valid() && asked < |gateway.approvals.approvals|
    requires gateway.approvals.approvals[asked].state == Authority.Pending
    modifies gateway`history, gateway.approvals`approvals, gateway.approvals`now
    ensures gateway.Valid() && gateway.approvals.now == old(gateway.approvals.now) + ticks
    ensures |gateway.approvals.approvals| == |old(gateway.approvals.approvals)|
    ensures gateway.approvals.approvals[asked] == old(gateway.approvals.approvals)[asked].(
              state := Authority.Approved, decidedAt := Some(old(gateway.approvals.now)))
  {
    hide Runs.Replay, Authority.Apply;
    var _ := gateway.HumanDecision(asked, Authority.Approved);
    gateway.Wait(ticks);
  }

  /** One call of the executor; the approval it waits for, if it has to wait. */
  method RunUntilAsked(executor: Executor, id: nat, adapterSucceeds: bool) returns (asked: Option<nat>)
    requires executor.Valid() && executor.Tracked(id) && Runnable(executor.missions.missions[id])
    requires executor.NextRequest(id).Some? && executor.gateway.safety.lifetime > 0
    modifies executor, executor.missions, executor.gateway`calls, executor.gateway`history
    modifies executor.gateway.approvals`approvals, executor.gateway.approvals`rules
    ensures executor.Valid() && executor.Tracked(id)
    ensures asked.Some? <==> executor.missions.missions[id].status == AwaitingApproval
    ensures asked.Some? ==>
              var q := old(executor.NextRequest(id)).value;
              && executor.Awaited(q, asked.value)
              && executor.CallMade(id, q, adapterSucceeds) && executor.LastReply() == Authority.Waiting(asked.value)
  {
    hide Successes, OnTrack, Runs.Replay, ReplyFor, RequestFor, Authority.Apply, Remaining;
    var first := executor.RunNext(id, adapterSucceeds);
    asked := if executor.missions.missions[id].status == AwaitingApproval then Some(first.value.reply.value.approvalId) else None;
  }

  /**
   A sequential run in which a human approves the request a step waits on and the step is resumed before the
   approval expires: the same request is presented again, and it is simulated or its adapter is invoked.
   */
  method ApproveAndResume(executor: Executor, id: nat, ticks: nat, adapterSucceeds: bool) returns (asked: Option<nat>, resumed: bool)
    requires executor.Valid() && executor.Tracked(id) && Runnable(executor.missions.missions[id])
    requires executor.NextRequest(id).Some? && executor.gateway.safety.lifetime > 0
    modifies executor, executor.missions, executor.gateway`calls, executor.gateway`history
    modifies executor.gateway.approvals`approvals, executor.gateway.approvals`rules, executor.gateway.approvals`now
    ensures executor.Valid() && executor.Tracked(id)
    ensures asked.None? ==> !resumed && executor.missions.missions[id].status != AwaitingApproval
    ensures asked.Some? ==>
              && asked.value < |executor.gateway.approvals.approvals|
              && (resumed <==> executor.gateway.approvals.approvals[asked.value].expiresAt > executor.gateway.approvals.now)
    ensures resumed ==>
              && |executor.gateway.calls| == |old(executor.gateway.calls)| + 2
              && executor.gateway.calls[|old(executor.gateway.calls)|].request == old(executor.NextRequest(id)).value
              && executor.gateway.calls[|old(executor.gateway.calls)| + 1].request == old(executor.NextRequest(id)).value
              && executor.LastReply() in {Authority.Simulated, if adapterSucceeds then Authority.Executed else Authority.Failed}
              && executor.missions.missions[id].status != AwaitingApproval
  {
    hide Successes, OnTrack, Runs.Replay, ReplyFor, RequestFor, Authority.Apply, Executor.DidResume, Executor.OthersUntouched,
         Executor.DidRunNext, Executor.Performed, Executor.NextRequest, Fingerprint, Runnable;
    ghost var before, q := executor.gateway.View(), executor.NextRequest(id).value;
    asked := RunUntilAsked(executor, id, adapterSucceeds);
    if asked.None? {
      return None, false;
    }
    ApproveLater(executor.gateway, asked.value, ticks);
    resumed := executor.gateway.approvals.approvals[asked.value].expiresAt > executor.gateway.approvals.now;
    if resumed {
      ghost var approved := executor.gateway.View();
      var second := executor.ResumeApproved(id, adapterSucceeds);
      ApprovalCarriesThrough(before, approved, q, asked.value, Authority.Waiting(asked.value), adapterSucceeds, executor.LastReply());
    }
  }

  /** The autonomous mission worker (src/ai_hq/missions/worker.py). */
  class AutonomousMissionRunner {
    const executor: Executor

    constructor (executor: Executor)
      ensures this.executor == executor
    {
      this.executor := executor;
    }

    /**
     Advances the oldest QUEUED or RUNNING mission that has a plan, and no other. That mission takes one step of
     its fold, and every other tracked mission stays where it is.
     */
    method RunOnce(adapterSucceeds: bool) returns (ran: Option<(nat, Result<Outcome>)>)
      requires executor.Valid()
      modifies executor, executor.missions, executor.gateway`calls, executor.gateway`history
      modifies executor.gateway.approvals`approvals, executor.gateway.approvals`rules
      ensures executor.Valid()
      ensures ran.None? ==>
                && executor.NothingSent() && executor.missions.missions == old(executor.missions.missions)
                && (forall i :: 0 <= i < |old(executor.missions.missions)| ==>
                      !(old(executor.missions.missions)[i].status in {Queued, InProgress} && old(executor.missions.missions)[i].plan != []))
      ensures ran.Some? ==>
                && ran.value.0 < |old(executor.missions.missions)|
                && old(executor.missions.missions)[ran.value.0].status in {Queued, InProgress}
                && old(executor.missions.missions)[ran.value.0].plan != []
                && (forall i :: 0 <= i < ran.value.0 ==>
                      !(old(executor.missions.missions)[i].status in {Queued, InProgress} && old(executor.missions.missions)[i].plan != []))
                && executor.DidRunNext(ran.value.0, adapterSucceeds, ran.value.1)
                && (old(executor.Tracked(ran.value.0)) ==> executor.OneFoldStep(ran.value.0, adapterSucceeds, ran.value.1))
      ensures forall id :: old(executor.Tracked(id)) && (ran.Some? ==> id != ran.value.0) ==> executor.Tracked(id)
    {
      hide Successes, OnTrack, Runs.Replay, ReplyFor, RequestFor, Authority.Apply;
      ghost var calls, missions, replies, made := executor.gateway.calls, executor.missions.missions, executor.replies, executor.made;
      for i := 0 to |executor.missions.missions|
        invariant executor.Valid() && executor.NothingSent() && executor.missions.missions == missions
        invariant forall j :: 0 <= j < i ==> !Runnable(missions[j])
      {
        if executor.missions.missions[i].status in {Queued, InProgress} && executor.missions.missions[i].plan != [] {
          var r := executor.RunNext(i, adapterSucceeds);
          forall id: nat | id < |missions| && old(executor.Tracked(id)) && id != i
            ensures executor.Tracked(id)
          {
            StaysOnTrack(calls, executor.gateway.calls, id, missions[id], old(executor.Replies(id)), old(executor.Made(id)));
          }
          return Some((i, r));
        }
      }
      ran := None;
    }
  }
}
