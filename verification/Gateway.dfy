/**
 The gateway as objects over shared tables: ApprovalService (src/ai_hq/approvals/service.py), SafetyService
 (src/ai_hq/safety/service.py) and ToolGateway (src/ai_hq/tool_gateway/service.py). One call of
 `ToolGateway.Execute` is proved to be a run of Authority, with the reply its tables dictate.
 */
module Gateway {
  import opened Prelude
  import opened SafetyPolicy
  import opened Authority
  import Runs

  class ApprovalService {
    var approvals: seq<Approval>
    var rules: seq<Rule>
    var now: int

    constructor (now: int)
      ensures approvals == [] && rules == [] && this.now == now
    {
      approvals, rules, this.now := [], [], now;
    }

    method CreateRequest(mission: nat, action: string, target: string, risk: Risk, plan: Json, expiresAt: int) returns (id: nat)
      modifies this`approvals
      ensures id == |old(approvals)|
      ensures approvals == old(approvals)
                           + [Approval(mission, action, target, risk, plan, Fingerprint(action, target, plan), Pending, expiresAt, None)]
    {
      id := |approvals|;
      approvals := approvals
        + [Approval(mission, action, target, risk, plan, Fingerprint(action, target, plan), Pending, expiresAt, None)];
    }

    method PendingForFingerprint(mission: nat, fingerprint: string) returns (found: Option<nat>)
      ensures found == FindPending(approvals, mission, fingerprint, now)
      ensures found.Some? ==>
                && found.value < |approvals| && approvals[found.value].mission == mission && approvals[found.value].fingerprint == fingerprint
                && approvals[found.value].state == Pending && approvals[found.value].expiresAt > now
      ensures found.None? ==>
                forall a :: a in approvals ==> !(a.mission == mission && a.fingerprint == fingerprint && a.state == Pending && a.expiresAt > now)
    {
      found := None;
      for i := 0 to |approvals|
        invariant found == FindPending(approvals[..i], mission, fingerprint, now)
      {
        assert approvals[..i + 1][..i] == approvals[..i];
        if found.None? && Awaits(approvals[i], mission, fingerprint, now) {
          found := Some(i);
        }
      }
      assert approvals[..|approvals|] == approvals;
    }

    /** A decision is made once: only a pending request can be decided, and never back to pending. */
    method Decide(id: nat, decision: ApprovalState) returns (r: Result<()>)
      modifies this`approvals
      ensures r.Ok? <==> decision != Pending && id < |old(approvals)| && old(approvals)[id].state == Pending
      ensures approvals == if r.Ok? then old(approvals)[id := old(approvals)[id].(state := decision, decidedAt := Some(now))]
                           else old(approvals)
    {
      if decision == Pending {
        return Err(ValueError);
      }
      if id >= |approvals| {
        return Err(KeyError);
      }
      if approvals[id].state != Pending {
        return Err(ValueError);
      }
      approvals := approvals[id := approvals[id].(state := decision, decidedAt := Some(now))];
      r := Ok(());
    }

    method IsApproved(mission: nat, fingerprint: string) returns (found: Option<nat>)
      ensures found == FindApproved(approvals, mission, fingerprint, now)
      ensures found.Some? ==>
                && found.value < |approvals| && approvals[found.value].mission == mission && approvals[found.value].fingerprint == fingerprint
                && approvals[found.value].state == Approved && approvals[found.value].expiresAt > now
      ensures found.None? ==>
                forall a :: a in approvals ==> !(a.mission == mission && a.fingerprint == fingerprint && a.state == Approved && a.expiresAt > now)
    {
      found := None;
      for i := 0 to |approvals|
        invariant found == FindApproved(approvals[..i], mission, fingerprint, now)
      {
        assert approvals[..i + 1][..i] == approvals[..i];
        if found.None? && Approves(approvals[i], mission, fingerprint, now) {
          found := Some(i);
        }
      }
      assert approvals[..|approvals|] == approvals;
    }

    method MatchingScopedRule(request: ToolRequest) returns (found: Option<nat>)
      ensures found == FindRule(rules, request, now)
      ensures found.Some? <==>
              && request.risk != Red
              && exists r :: r in rules && r.action == request.capability && r.target == request.target && r.risk == request.risk
                             && r.conditions == request.conditions && r.expiresAt > now
                             && (r.maxCount.None? || r.count < r.maxCount.value)
    {
      found := None;
      if request.risk == Red {
        return;
      }
      for i := 0 to |rules|
        invariant found == FindRule(rules[..i], request, now)
      {
        assert rules[..i + 1][..i] == rules[..i];
        if found.None? && Covers(rules[i], request) && Usable(rules[i], now) {
          found := Some(i);
        }
      }
      assert rules[..|rules|] == rules;
    }

    /** A conditional UPDATE: the counter moves exactly when the rule is not RED, unexpired and below its limit. */
    method ConsumeRule(id: nat) returns (r: Result<()>)
      modifies this`rules
      ensures r.Ok? <==>
              && id < |old(rules)| && old(rules)[id].risk != Red && old(rules)[id].expiresAt > now
              && (old(rules)[id].maxCount.None? || old(rules)[id].count < old(rules)[id].maxCount.value)
      ensures r == Err(KeyError) <==> id >= |old(rules)|
      ensures rules == if r.Ok? then old(rules)[id := old(rules)[id].(count := old(rules)[id].count + 1)] else old(rules)
    {
      if id < |rules| && rules[id].risk != Red && rules[id].expiresAt > now
         && (rules[id].maxCount.None? || rules[id].count < rules[id].maxCount.value) {
        rules := rules[id := rules[id].(count := rules[id].count + 1)];
        return Ok(());
      }
      r := if id >= |rules| then Err(KeyError) else Err(ValueError);
    }
  }

  datatype SafetyResult = SafetyResult(decision: Decision, approvalId: Option<nat>, ruleId: Option<nat>)

  /** What a call finds when all its reads see the same tables. */
  function Snapshot(s: Store, request: ToolRequest): Call {
    var c := Call(request, NeedRules, Permitted(s.permissions, request), s.system,
                  FindApproved(s.approvals, request.mission, RequestFingerprint(request), s.now), s.now,
                  FindRule(s.rules, request, s.now), None, s.now, None);
    c.(stage := Judged(c))
  }

  class SafetyService {
    const approvals: ApprovalService
    const lifetime: int
    var system: System

    constructor (approvals: ApprovalService, lifetime: int)
      ensures this.approvals == approvals && this.lifetime == lifetime && system == Unavailable
    {
      this.approvals, this.lifetime, system := approvals, lifetime, Unavailable;
    }

    /**
     Reads mode, approvals and rules, decides, and makes sure a request is pending when an approval is
     required: an existing one is reused, otherwise one is created for exactly this action plan.
     */
    method Evaluate(request: ToolRequest, authorized: bool) returns (r: SafetyResult)
      modifies approvals`approvals
      ensures var approved := FindApproved(old(approvals.approvals), request.mission, RequestFingerprint(request), approvals.now);
              var rule := FindRule(approvals.rules, request, approvals.now);
              && r.ruleId == rule
              && r.decision == EvaluateAction(
                   ActionIntent(request.risk, request.mutates, rule.Some? || approved.Some?, approved.Some?,
                                authorized && system.Available?),
                   ModeOf(system), SimulationOf(system))
      ensures r.approvalId.Some? <==> r.decision == RequireApproval
      ensures r.decision == RequireApproval ==>
                var pending := FindPending(old(approvals.approvals), request.mission, RequestFingerprint(request), approvals.now);
                && r.approvalId == (if pending.Some? then pending else Some(|old(approvals.approvals)|))
                && approvals.approvals == old(approvals.approvals)
                   + (if pending.Some? then []
                      else [Approval(request.mission, request.capability, request.target, request.risk, ActionPlan(request),
                                     RequestFingerprint(request), Pending, approvals.now + lifetime, None)])
      ensures |approvals.approvals| > |old(approvals.approvals)| ==> AskedFor(approvals.approvals[|old(approvals.approvals)|], request)
      ensures r.decision != RequireApproval ==> approvals.approvals == old(approvals.approvals)
    {
      PlanNamesRequest(request);
      var fingerprint := RequestFingerprint(request);
      var mode, simulation := ModeOf(system), SimulationOf(system);
      var approved := approvals.IsApproved(request.mission, fingerprint);
      var rule := approvals.MatchingScopedRule(request);
      var available := authorized && system.Available?;
      var intent := ActionIntent(request.risk, request.mutates, rule.Some? || approved.Some?, approved.Some?, available);
      var decision := EvaluateAction(intent, mode, simulation);
      if decision != RequireApproval {
        return SafetyResult(decision, None, rule);
      }
      var pending := approvals.PendingForFingerprint(request.mission, fingerprint);
      if pending.None? {
        var id := approvals.CreateRequest(request.mission, request.capability, request.target, request.risk,
                                          ActionPlan(request), approvals.now + lifetime);
        pending := Some(id);
      } else {
        assert approvals.approvals == old(approvals.approvals) + [];
      }
      r := SafetyResult(decision, pending, rule);
    }
  }

  /** The five reads of a call, one transaction after the other. */
  function Reads(request: ToolRequest, k: nat): seq<Event> {
    [Begin(request), ReadPermission(k), ReadMode(k), ReadApprovals(k), ReadRules(k)]
  }

  /** The store with one more call, which is all a sequence of reads changes. */
  function With(s: Store, c: Call): Store {
    s.(calls := s.calls + [c])
  }

  lemma ReadPermissionStep(s: Store, c: Call)
    requires c.stage == NeedPermission
    ensures Apply(With(s, c), ReadPermission(|s.calls|))
            == With(s, c.(stage := NeedMode, permitted := Permitted(s.permissions, c.request)))
  {
  }

  lemma ReadModeStep(s: Store, c: Call)
    requires c.stage == NeedMode
    ensures Apply(With(s, c), ReadMode(|s.calls|)) == With(s, c.(stage := NeedApprovals, system := s.system))
  {
  }

  lemma ReadApprovalsStep(s: Store, c: Call)
    requires c.stage == NeedApprovals
    ensures Apply(With(s, c), ReadApprovals(|s.calls|))
            == With(s, c.(stage := NeedRules, approvalReadAt := s.now,
                          approval := FindApproved(s.approvals, c.request.mission, RequestFingerprint(c.request), s.now)))
  {
  }

  lemma ReadRulesStep(s: Store, c: Call)
    requires c.stage == NeedRules
    ensures var found := c.(rule := FindRule(s.rules, c.request, s.now));
            Apply(With(s, c), ReadRules(|s.calls|)) == With(s, found.(stage := Judged(found)))
  {
  }

  lemma ReadsSnapshot(s: Store, request: ToolRequest)
    requires request.capability in s.capabilities
    ensures Runs.Replay(Apply, s, Reads(request, |s.calls|)) == With(s, Snapshot(s, request))
  {
    hide Fingerprint, FindApproved, FindRule, EvaluateAction, Permitted, Runs.Replay;
    var k := |s.calls|;
    var c0 := Begun(s, request);
    var c1 := c0.(stage := NeedMode, permitted := Permitted(s.permissions, request));
    var c2 := c1.(stage := NeedApprovals, system := s.system);
    var c3 := c2.(stage := NeedRules, approvalReadAt := s.now,
                  approval := FindApproved(s.approvals, request.mission, RequestFingerprint(request), s.now));
    assert Apply(s, Begin(request)) == With(s, c0);
    ReadPermissionStep(s, c0);
    ReadModeStep(s, c1);
    ReadApprovalsStep(s, c2);
    ReadRulesStep(s, c3);
    hide Apply, With, Judged;
    Runs.Five(Apply, s, Begin(request), ReadPermission(k), ReadMode(k), ReadApprovals(k), ReadRules(k));
  }

  /** The reply a call must get from unchanging tables. */
  ghost predicate ReplyFor(s: Store, request: ToolRequest, adapterSucceeds: bool, reply: Reply) {
    if request.capability !in s.capabilities then reply == Blocked
    else
      match Verdict(Snapshot(s, request))
      case Block => reply == Blocked
      case RequireApproval => reply.Waiting?
      case SimulateOnly => reply == Simulated
      case Allow => reply == if adapterSucceeds then Executed else Failed
  }

  /** The mission holds an approved, unexpired request for the same capability, target and parameters. */
  ghost predicate HasApproval(s: Store, request: ToolRequest) {
    exists a :: a in s.approvals && a.mission == request.mission && a.fingerprint == RequestFingerprint(request)
                && a.state == Approved && a.expiresAt > s.now
  }

  /** Some unexpired, unspent rule is made for the request's capability, target, risk and conditions. */
  ghost predicate HasRule(s: Store, request: ToolRequest) {
    exists r :: r in s.rules && r.action == request.capability && r.target == request.target && r.risk == request.risk
                && r.conditions == request.conditions && r.expiresAt > s.now && (r.maxCount.None? || r.count < r.maxCount.value)
  }

  /** Nothing of this can be approved: no adapter or permission, no safety state, FREEZE, RED, or a mutation in SAFE mode. */
  predicate Stopped(s: Store, request: ToolRequest) {
    || request.capability !in s.capabilities
    || request.agent !in s.permissions || request.capability !in s.permissions[request.agent]
    || s.system.Unavailable? || s.system.mode == Freeze || request.risk == Red || (s.system.mode == Safe && request.mutates)
  }

  /** Every risk but GREEN needs its authority, and GREEN needs one to mutate; a rule is one for BLUE alone. */
  ghost predicate Unapproved(s: Store, request: ToolRequest) {
    && !HasApproval(s, request)
    && (request.risk == Blue ==> !HasRule(s, request))
    && (request.risk == Green ==> request.mutates)
  }

  /** The exact condition for each answer, on the request and the tables. */
  lemma ReplyExactly(s: Store, request: ToolRequest, adapterSucceeds: bool, reply: Reply)
    requires ReplyFor(s, request, adapterSucceeds, reply)
    ensures reply == Blocked <==> Stopped(s, request)
    ensures reply.Waiting? <==> !Stopped(s, request) && Unapproved(s, request)
    ensures reply == Simulated <==>
            !Stopped(s, request) && !Unapproved(s, request) && request.mutates && s.system.simulation
    ensures reply == Executed || reply == Failed <==>
            !Stopped(s, request) && !Unapproved(s, request) && !(request.mutates && s.system.simulation)
    ensures reply == Executed ==> adapterSucceeds
    ensures reply == Failed ==> !adapterSucceeds
  {
    hide Fingerprint;
    var c := Snapshot(s, request);
    assert c.approval.Some? <==> HasApproval(s, request) by {
      if c.approval.Some? {
        assert s.approvals[c.approval.value] in s.approvals;
      }
    }
    assert request.risk != Red ==> (c.rule.Some? <==> HasRule(s, request)) by {
      if c.rule.Some? {
        assert s.rules[c.rule.value] in s.rules;
      }
    }
  }

  /**
   What entitles a mutating request: NORMAL mode outside simulation, the exact permission, and an unexpired human approval
   of exactly its capability, target and parameters, or for BLUE an unexpired, unspent rule of its own.
   */
  ghost predicate Entitled(s: Store, request: ToolRequest) {
    && s.system == Available(Normal, false) && request.risk != Red
    && request.capability in s.capabilities
    && request.agent in s.permissions && request.capability in s.permissions[request.agent]
    && (|| (exists a :: a in s.approvals && a.state == Approved && a.expiresAt > s.now && AskedFor(a, request))
        || (request.risk == Blue
            && exists r :: r in s.rules && r.action == request.capability && r.target == request.target && r.risk == Blue
                           && r.conditions == request.conditions && r.expiresAt > s.now
                           && (r.maxCount.None? || r.count < r.maxCount.value)))
  }

  /** An adapter is only ever invoked for a mutating request that is entitled to it. */
  lemma InvokedIsEntitled(s: Store, request: ToolRequest, adapterSucceeds: bool, reply: Reply)
    requires Authority.Inv(s) && ReplyFor(s, request, adapterSucceeds, reply)
    requires request.mutates && (reply == Executed || reply == Failed)
    ensures Entitled(s, request)
  {
    hide Fingerprint, Charges;
    var c := Snapshot(s, request);
    assert Verdict(c) == Allow;
    if c.approval.Some? {
      var a := s.approvals[c.approval.value];
      assert ApprovalSound(a, s.now) && a in s.approvals;
      FingerprintIdentifies(a.action, a.target, a.plan, request.capability, request.target, ActionPlan(request));
      PlanNamesRequest(request);
    } else {
      assert s.rules[c.rule.value] in s.rules;
    }
  }

  class ToolGateway {
    const safety: SafetyService
    const approvals: ApprovalService
    const capabilities: set<string>
    var permissions: map<string, set<string>>
    ghost var calls: seq<Call>
    ghost var history: seq<Event>
    ghost const start: int

    ghost function View(): Store
      reads this, safety, approvals
    {
      Store(capabilities, permissions, safety.system, approvals.approvals, approvals.rules, calls, safety.lifetime, approvals.now)
    }

    ghost function Origin(): Store {
      Init(capabilities, safety.lifetime, start)
    }

    ghost predicate Valid()
      reads this, safety, approvals
    {
      approvals == safety.approvals && View() == Runs.Replay(Apply, Origin(), history)
    }

    /** A human has approved exactly this request and the approval has not expired. */
    ghost predicate Approved(request: ToolRequest)
      reads approvals
    {
      exists i :: 0 <= i < |approvals.approvals|
                  && Approves(approvals.approvals[i], request.mission, RequestFingerprint(request), approvals.now)
    }

    /** At every moment of the object's life: the authorisation and counting invariants. */
    lemma Sound()
      requires Valid()
      ensures Authority.Inv(View())
    {
      RunKeeps(Origin(), history);
    }

    constructor (safety: SafetyService, capabilities: set<string>)
      requires safety.system == Unavailable && safety.approvals.approvals == [] && safety.approvals.rules == []
      ensures Valid() && this.safety == safety && approvals == safety.approvals && history == [] && calls == []
      ensures this.capabilities == capabilities && permissions == map[]
    {
      this.safety, this.approvals, this.capabilities := safety, safety.approvals, capabilities;
      permissions, calls, history := map[], [], [];
      start := safety.approvals.now;
    }

    /** Records an event whose effect on the tables has just been carried out. */
    ghost method Log(before: Store, e: Event)
      requires approvals == safety.approvals && before == Runs.Replay(Apply, Origin(), history)
      requires View() == Apply(before, e)
      modifies this`history
      ensures Valid() && history == old(history) + [e]
    {
      Runs.Extend(Apply, Origin(), history, e);
      history := history + [e];
    }

    /** A human decides a request, as the approval routes do. */
    method HumanDecision(id: nat, decision: ApprovalState) returns (r: Result<()>)
      requires Valid()
      modifies this`history, approvals`approvals
      ensures Valid() && View() == Apply(old(View()), Decide(id, decision))
      ensures r.Ok? <==> decision != Pending && id < |old(approvals.approvals)| && old(approvals.approvals)[id].state == Pending
      ensures r.Ok? ==> approvals.approvals
                        == old(approvals.approvals)[id := old(approvals.approvals)[id].(state := decision, decidedAt := Some(approvals.now))]
    {
      hide Runs.Replay;
      ghost var before := View();
      r := approvals.Decide(id, decision);
      Log(before, Decide(id, decision));
    }

    /** An operator creates a scoped rule; its counter starts at zero. */
    method CreateScopedRule(rule: Rule) returns (id: nat)
      requires Valid()
      modifies this`history, approvals`rules
      ensures Valid() && View() == Apply(old(View()), CreateRule(rule)) && id == |old(approvals.rules)|
    {
      hide Runs.Replay;
      ghost var before := View();
      id := |approvals.rules|;
      approvals.rules := approvals.rules + [rule.(count := 0)];
      Log(before, CreateRule(rule));
    }

    /** An operator changes the operating mode or the simulation switch. */
    method ChangeSystem(system: System)
      requires Valid()
      modifies this`history, safety`system
      ensures Valid() && View() == Apply(old(View()), SetSystem(system))
    {
      hide Runs.Replay;
      ghost var before := View();
      safety.system := system;
      Log(before, SetSystem(system));
    }

    method GrantPermissions(agent: string, granted: set<string>)
      requires Valid()
      modifies this`history, this`permissions
      ensures Valid() && View() == Apply(old(View()), SetPermissions(agent, granted))
    {
      hide Runs.Replay;
      ghost var before := View();
      permissions := permissions[agent := granted];
      Log(before, SetPermissions(agent, granted));
    }

    method Wait(ticks: nat)
      requires Valid()
      modifies this`history, approvals`now
      ensures Valid() && approvals.now == old(approvals.now) + ticks
    {
      hide Runs.Replay;
      ghost var before := View();
      approvals.now := approvals.now + ticks;
      Log(before, Tick(ticks));
    }

    /** `_has_exact_permission`. */
    method HasExactPermission(request: ToolRequest) returns (authorized: bool)
      ensures authorized == Permitted(permissions, request)
      ensures authorized <==> request.agent in permissions && request.capability in permissions[request.agent]
    {
      authorized := request.agent in permissions && request.capability in permissions[request.agent];
    }

    /** The reads of a call: evaluates, and records the call with everything it found. */
    method Evaluate(request: ToolRequest) returns (r: SafetyResult, ghost k: nat)
      requires Valid() && request.capability in capabilities
      modifies this`calls, this`history, approvals`approvals
      ensures Valid() && k == |old(calls)| && old(history) <= history
      ensures r.decision == Verdict(Snapshot(old(View()), request)) && r.ruleId == FindRule(approvals.rules, request, approvals.now)
      ensures |calls| == k + 1 && calls[..k] == old(calls)
      ensures r.decision != RequireApproval ==>
                calls[k] == Snapshot(old(View()), request) && approvals.approvals == old(approvals.approvals)
      ensures r.decision == RequireApproval ==>
                && r.approvalId.Some?
                && calls[k].request == request && calls[k].stage == Done(Waiting(r.approvalId.value)) && calls[k].invokedAt.None?
                && old(approvals.approvals) <= approvals.approvals
                && r.approvalId.value < |approvals.approvals|
                && (safety.lifetime > 0 ==>
                      Awaits(approvals.approvals[r.approvalId.value], request.mission, RequestFingerprint(request), approvals.now))
    {
      hide Runs.Replay, Fingerprint, FindApproved, FindRule, FindPending, EvaluateAction, Apply, AskedFor, Permitted;
      k := |calls|;
      ghost var before := View();
      LogReads(request);
      ghost var asked := View();
      var authorized := HasExactPermission(request);
      r := safety.Evaluate(request, authorized);
      if r.decision == RequireApproval {
        LogAsk(asked, request, k, r.approvalId.value);
      }
    }

    ghost method LogReads(request: ToolRequest)
      requires Valid() && request.capability in capabilities
      modifies this`calls, this`history
      ensures Valid() && old(history) <= history
      ensures View() == With(old(View()), Snapshot(old(View()), request))
    {
      hide Runs.Replay, Fingerprint, FindApproved, FindRule, EvaluateAction, Apply, Snapshot;
      var before := View();
      ReadsSnapshot(before, request);
      Runs.Split(Apply, Origin(), history, Reads(request, |calls|));
      calls := calls + [Snapshot(before, request)];
      history := history + Reads(request, |before.calls|);
    }

    /** Records the request for approval that the evaluation has just looked up or created. */
    ghost method LogAsk(asked: Store, request: ToolRequest, k: nat, id: nat)
      requires approvals == safety.approvals && asked == Runs.Replay(Apply, Origin(), history)
      requires k < |calls| && calls[k].request == request && calls[k].stage == NeedRequest
      requires var pending := FindPending(asked.approvals, request.mission, RequestFingerprint(request), asked.now);
               && id == (if pending.Some? then pending.value else |asked.approvals|)
               && View() == asked.(approvals := asked.approvals + (if pending.Some? then [] else [NewApproval(asked, request)]))
      modifies this`calls, this`history
      ensures Valid() && old(history) <= history
      ensures calls == old(calls)[k := old(calls)[k].(stage := Done(Waiting(id)))]
    {
      hide Runs.Replay, Fingerprint, FindPending, EvaluateAction;
      calls := calls[k := calls[k].(stage := Done(Waiting(id)))];
      assert asked.approvals + [] == asked.approvals;
      Log(asked, AskApproval(k));
    }

    /** Resolution, evaluation, consumption and the adapter, one after the other. */
    method Resolve(request: ToolRequest, adapterSucceeds: bool) returns (reply: Reply)
      requires Valid()
      modifies this`calls, this`history, approvals`approvals, approvals`rules
      ensures Valid() && old(history) <= history
      ensures ReplyFor(old(View()), request, adapterSucceeds, reply)
      ensures |calls| == |old(calls)| + 1 && calls[..|old(calls)|] == old(calls)
      ensures calls[|old(calls)|].request == request && calls[|old(calls)|].stage == Done(reply)
      ensures calls[|old(calls)|].invokedAt.Some? <==> reply == Executed || reply == Failed
      ensures approvals.rules == (
                var rule := FindRule(old(approvals.rules), request, approvals.now);
                if calls[|old(calls)|].invokedAt.Some? && request.mutates && rule.Some?
                then old(approvals.rules)[rule.value := old(approvals.rules)[rule.value].(
                       count := old(approvals.rules)[rule.value].count + 1)]
                else old(approvals.rules))
      ensures old(approvals.approvals) <= approvals.approvals
      ensures !reply.Waiting? ==> approvals.approvals == old(approvals.approvals)
      ensures reply.Waiting? && safety.lifetime > 0 ==>
                && reply.approvalId < |approvals.approvals|
                && Awaits(approvals.approvals[reply.approvalId], request.mission, RequestFingerprint(request), approvals.now)
    {
      hide Runs.Replay, Fingerprint, FindApproved, FindRule, EvaluateAction, Apply;
      if request.capability !in capabilities {
        LogUnresolved(request);
        return Blocked;
      }
      var evaluated, k := Evaluate(request);
      if evaluated.decision == Block {
        return Blocked;
      }
      if evaluated.decision == RequireApproval {
        return Waiting(evaluated.approvalId.value);
      }
      if evaluated.decision == SimulateOnly {
        return Simulated;
      }
      reply := CarryOut(k, request, evaluated.ruleId, adapterSucceeds);
    }

    /**
     One guarded execution. The reply is the one the tables dictate; a matched rule is always consumed
     before a mutating adapter call, which in one uninterrupted call cannot fail.
     */
    method Execute(request: ToolRequest, adapterSucceeds: bool) returns (reply: Reply)
      requires Valid()
      modifies this`calls, this`history, approvals`approvals, approvals`rules
      ensures Valid() && old(history) <= history
      ensures ReplyFor(old(View()), request, adapterSucceeds, reply)
      ensures request.mutates && (reply == Executed || reply == Failed) ==> old(Entitled(View(), request))
      ensures |calls| == |old(calls)| + 1 && calls[..|old(calls)|] == old(calls)
      ensures calls[|old(calls)|].request == request && calls[|old(calls)|].stage == Done(reply)
      ensures calls[|old(calls)|].invokedAt.Some? <==> reply == Executed || reply == Failed
      ensures approvals.rules == (
                var rule := FindRule(old(approvals.rules), request, approvals.now);
                if calls[|old(calls)|].invokedAt.Some? && request.mutates && rule.Some?
                then old(approvals.rules)[rule.value := old(approvals.rules)[rule.value].(
                       count := old(approvals.rules)[rule.value].count + 1)]
                else old(approvals.rules))
      ensures old(approvals.approvals) <= approvals.approvals
      ensures !reply.Waiting? ==> approvals.approvals == old(approvals.approvals)
      ensures reply.Waiting? && safety.lifetime > 0 ==>
                && reply.approvalId < |approvals.approvals|
                && Awaits(approvals.approvals[reply.approvalId], request.mission, RequestFingerprint(request), approvals.now)
    {
      hide Runs.Replay, Fingerprint, FindRule, ReplyFor, Entitled, Authority.Inv, Apply;
      ghost var before := View();
      Sound();
      reply := Resolve(request, adapterSucceeds);
      if request.mutates && (reply == Executed || reply == Failed) {
        InvokedIsEntitled(before, request, adapterSucceeds, reply);
      }
    }

    /** An allowed call: consume the matched rule of a mutating request, then invoke the adapter. */
    method CarryOut(ghost k: nat, request: ToolRequest, ruleId: Option<nat>, adapterSucceeds: bool) returns (reply: Reply)
      requires Valid() && k < |calls| && calls[k].request == request && calls[k].rule == ruleId
      requires calls[k].stage == if request.mutates && ruleId.Some? then NeedCharge else NeedAdapter
      requires ruleId.Some? ==> Consumable(View(), ruleId.value)
      modifies this`calls, this`history, approvals`rules
      ensures Valid() && old(history) <= history
      ensures reply == if adapterSucceeds then Executed else Failed
      ensures |calls| == |old(calls)| && calls[..k] == old(calls)[..k]
      ensures calls[k].request == request && calls[k].stage == Done(reply) && calls[k].invokedAt.Some?
      ensures approvals.rules ==
              if request.mutates && ruleId.Some?
              then old(approvals.rules)[ruleId.value := old(approvals.rules)[ruleId.value].(
                     count := old(approvals.rules)[ruleId.value].count + 1)]
              else old(approvals.rules)
    {
      hide Runs.Replay, Fingerprint, Apply;
      if request.mutates && ruleId.Some? {
        var consumed := Charge(k, ruleId.value);
        if consumed.Err? {
          return Blocked;
        }
      }
      reply := Adapter(k, adapterSucceeds);
    }

    ghost method LogUnresolved(request: ToolRequest)
      requires Valid() && request.capability !in capabilities
      modifies this`calls, this`history
      ensures Valid() && old(history) <= history
      ensures calls == old(calls) + [Begun(old(View()), request)]
    {
      hide Runs.Replay, Fingerprint;
      var before := View();
      calls := calls + [Begun(before, request)];
      Log(before, Begin(request));
    }

    method Charge(ghost k: nat, rule: nat) returns (r: Result<()>)
      requires Valid() && k < |calls| && calls[k].stage == NeedCharge && calls[k].rule == Some(rule)
      modifies this`calls, this`history, approvals`rules
      ensures Valid() && old(history) <= history && |calls| == |old(calls)|
      ensures r.Ok? <==> Consumable(old(View()), rule)
      ensures r.Ok? ==> calls == old(calls)[k := old(calls)[k].(stage := NeedAdapter, charge := Some(rule), chargedAt := approvals.now)]
      ensures r.Ok? ==> approvals.rules
                        == old(approvals.rules)[rule := old(approvals.rules)[rule].(count := old(approvals.rules)[rule].count + 1)]
    {
      hide Runs.Replay, Fingerprint;
      ghost var before := View();
      r := approvals.ConsumeRule(rule);
      calls := calls[k := if r.Ok? then calls[k].(stage := NeedAdapter, charge := Some(rule), chargedAt := approvals.now)
                          else calls[k].(stage := Done(Blocked))];
      Log(before, Consume(k));
    }

    method Adapter(ghost k: nat, succeeds: bool) returns (reply: Reply)
      requires Valid() && k < |calls| && calls[k].stage == NeedAdapter
      modifies this`calls, this`history
      ensures Valid() && old(history) <= history
      ensures reply == if succeeds then Executed else Failed
      ensures calls == old(calls)[k := old(calls)[k].(stage := Done(reply), invokedAt := Some(approvals.now))]
    {
      hide Runs.Replay, Fingerprint;
      ghost var before := View();
      reply := if succeeds then Executed else Failed;
      calls := calls[k := calls[k].(stage := Done(reply), invokedAt := Some(approvals.now))];
      Log(before, Invoke(k, succeeds));
    }
  }

  // ---------- after a human approval ----------

  /** With an unexpired approval of its exact plan, a request is never sent back to wait. */
  lemma ApprovedNeverWaits(s: Store, request: ToolRequest, id: nat)
    requires id < |s.approvals| && Approves(s.approvals[id], request.mission, RequestFingerprint(request), s.now)
    ensures Verdict(Snapshot(s, request)) != RequireApproval
  {
  }

  /** If nothing but the approval has changed since it was asked for, the request is carried out or simulated. */
  lemma ApprovalIsEnough(s: Store, t: Store, request: ToolRequest, id: nat)
    requires Verdict(Snapshot(s, request)) == RequireApproval
    requires t.system == s.system && t.permissions == s.permissions
    requires id < |t.approvals| && Approves(t.approvals[id], request.mission, RequestFingerprint(request), t.now)
    ensures Verdict(Snapshot(t, request)) in {Allow, SimulateOnly}
  {
  }

  /** In NORMAL mode outside simulation, a permitted request with an approval of its plan reaches its adapter. */
  lemma ApprovedIsCarriedOut(s: Store, request: ToolRequest, id: nat, adapterSucceeds: bool, reply: Reply)
    requires ReplyFor(s, request, adapterSucceeds, reply)
    requires request.capability in s.capabilities && request.risk != Red && s.system == Available(Normal, false)
    requires request.agent in s.permissions && request.capability in s.permissions[request.agent]
    requires id < |s.approvals| && s.approvals[id].state == Approved && s.approvals[id].expiresAt > s.now
    requires s.approvals[id].mission == request.mission && s.approvals[id].fingerprint == RequestFingerprint(request)
    ensures reply == if adapterSucceeds then Executed else Failed
  {
    hide Fingerprint;
    assert Approves(s.approvals[id], request.mission, RequestFingerprint(request), s.now);
  }
}
