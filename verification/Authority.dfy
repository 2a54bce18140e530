/**
 Approvals, scoped rules and gateway calls as one shared store (src/ai_hq/approvals/service.py,
 src/ai_hq/safety/service.py, src/ai_hq/tool_gateway/service.py). A gateway call is a sequence of separate
 transactions; any number of calls, human decisions and configuration changes may interleave between them.
 */
module Authority {
  import opened Prelude
  import opened SafetyPolicy
  import CanonicalJson
  import Runs

  datatype ApprovalState = Pending | Approved | Denied | Cancelled

  datatype Approval = Approval(
    mission: nat, action: string, target: string, risk: Risk, plan: Json, fingerprint: string,
    state: ApprovalState, expiresAt: int, decidedAt: Option<int>)

  datatype Rule = Rule(
    action: string, target: string, risk: Risk, conditions: Json, expiresAt: int, maxCount: Option<int>, count: int)

  /** The singleton safety state; when it is missing or unreadable the service acts as frozen and unauthorised. */
  datatype System = Unavailable | Available(mode: Mode, simulation: bool)

  datatype Reply =
    | Blocked
    | Waiting(approvalId: nat)
    | Simulated
    | Executed
    | Failed

  /** The next transaction of a call. */
  datatype Stage = NeedPermission | NeedMode | NeedApprovals | NeedRules | NeedRequest | NeedCharge | NeedAdapter | Done(reply: Reply)

  /** `approval` and `rule` are the rows the call found; `charge` is the rule it consumed. */
  datatype Call = Call(
    request: ToolRequest,
    stage: Stage,
    permitted: bool,
    system: System,
    approval: Option<nat>,
    approvalReadAt: int,
    rule: Option<nat>,
    charge: Option<nat>,
    chargedAt: int,
    invokedAt: Option<int>)

  datatype Store = Store(
    capabilities: set<string>,
    permissions: map<string, set<string>>,
    system: System,
    approvals: seq<Approval>,
    rules: seq<Rule>,
    calls: seq<Call>,
    lifetime: int,
    now: int)

  datatype Event =
    | Tick(ticks: nat)
    | SetSystem(system: System)
    | SetPermissions(agent: string, granted: set<string>)
    | CreateRule(rule: Rule)
    | CreateRequest(mission: nat, action: string, target: string, risk: Risk, plan: Json, expiresAt: int)
    | Decide(id: nat, decision: ApprovalState)
    | Begin(request: ToolRequest)
    | ReadPermission(call: nat)
    | ReadMode(call: nat)
    | ReadApprovals(call: nat)
    | ReadRules(call: nat)
    | AskApproval(call: nat)
    | Consume(call: nat)
    | Invoke(call: nat, succeeded: bool)

  function Init(capabilities: set<string>, lifetime: int, now: int): Store {
    Store(capabilities, map[], Unavailable, [], [], [], lifetime, now)
  }

  // ---------- the queries ----------

  function ModeOf(system: System): Mode {
    if system.Available? then system.mode else Freeze
  }

  function SimulationOf(system: System): bool {
    if system.Available? then system.simulation else true
  }

  predicate Approves(a: Approval, mission: nat, fingerprint: string, now: int) {
    a.mission == mission && a.fingerprint == fingerprint && a.state == Approved && a.expiresAt > now
  }

  predicate Awaits(a: Approval, mission: nat, fingerprint: string, now: int) {
    a.mission == mission && a.fingerprint == fingerprint && a.state == Pending && a.expiresAt > now
  }

  predicate Covers(r: Rule, request: ToolRequest) {
    r.action == request.capability && r.target == request.target && r.risk == request.risk && r.conditions == request.conditions
  }

  predicate Usable(r: Rule, now: int) {
    r.expiresAt > now && (r.maxCount.Some? ==> r.count < r.maxCount.value)
  }

  /** `is_approved`: the first request that approves the action now. */
  function FindApproved(approvals: seq<Approval>, mission: nat, fingerprint: string, now: int): (r: Option<nat>)
    ensures r.Some? ==> r.value < |approvals| && Approves(approvals[r.value], mission, fingerprint, now)
    ensures r.None? ==> forall i :: 0 <= i < |approvals| ==> !Approves(approvals[i], mission, fingerprint, now)
  {
    if approvals == [] then None
    else
      var last := |approvals| - 1;
      var earlier := FindApproved(approvals[..last], mission, fingerprint, now);
      if earlier.Some? then earlier
      else if Approves(approvals[last], mission, fingerprint, now) then Some(last)
      else None
  }

  /** `pending_for_fingerprint`: the first unexpired request still waiting for a decision on the action. */
  function FindPending(approvals: seq<Approval>, mission: nat, fingerprint: string, now: int): (r: Option<nat>)
    ensures r.Some? ==> r.value < |approvals| && Awaits(approvals[r.value], mission, fingerprint, now)
    ensures r.None? ==> forall i :: 0 <= i < |approvals| ==> !Awaits(approvals[i], mission, fingerprint, now)
  {
    if approvals == [] then None
    else
      var last := |approvals| - 1;
      var earlier := FindPending(approvals[..last], mission, fingerprint, now);
      if earlier.Some? then earlier
      else if Awaits(approvals[last], mission, fingerprint, now) then Some(last)
      else None
  }

  /** `matching_scoped_rule`: the first usable rule for the request; RED requests have none. */
  function FindRule(rules: seq<Rule>, request: ToolRequest, now: int): (r: Option<nat>)
    ensures r.Some? ==> r.value < |rules| && Covers(rules[r.value], request) && Usable(rules[r.value], now) && request.risk != Red
    ensures r.None? && request.risk != Red ==> forall i :: 0 <= i < |rules| ==> !(Covers(rules[i], request) && Usable(rules[i], now))
  {
    if rules == [] || request.risk == Red then None
    else
      var last := |rules| - 1;
      var earlier := FindRule(rules[..last], request, now);
      if earlier.Some? then earlier
      else if Covers(rules[last], request) && Usable(rules[last], now) then Some(last)
      else None
  }

  predicate Permitted(permissions: map<string, set<string>>, request: ToolRequest) {
    request.agent in permissions && request.capability in permissions[request.agent]
  }

  function Intent(c: Call): ActionIntent {
    ActionIntent(c.request.risk, c.request.mutates, c.rule.Some? || c.approval.Some?, c.approval.Some?,
                 c.permitted && c.system.Available?)
  }

  function Verdict(c: Call): Decision {
    EvaluateAction(Intent(c), ModeOf(c.system), SimulationOf(c.system))
  }

  // ---------- the transactions ----------

  function Begun(s: Store, request: ToolRequest): Call {
    Call(request, if request.capability in s.capabilities then NeedPermission else Done(Blocked),
         false, Unavailable, None, s.now, None, None, s.now, None)
  }

  /** Where a call goes once everything has been read. */
  function Judged(c: Call): Stage {
    match Verdict(c)
    case Block => Done(Blocked)
    case RequireApproval => NeedRequest
    case SimulateOnly => Done(Simulated)
    case Allow => if c.request.mutates && c.rule.Some? then NeedCharge else NeedAdapter
  }

  function NewApproval(s: Store, request: ToolRequest): Approval {
    Approval(request.mission, request.capability, request.target, request.risk, ActionPlan(request),
             RequestFingerprint(request), Pending, s.now + s.lifetime, None)
  }

  /** The conditional UPDATE of `consume_rule`. */
  predicate Consumable(s: Store, r: nat) {
    r < |s.rules| && s.rules[r].risk != Red && Usable(s.rules[r], s.now)
  }

  predicate InStage(s: Store, k: nat, stage: Stage) {
    k < |s.calls| && s.calls[k].stage == stage
  }

  function Step(s: Store, k: nat, c: Call): Store
    requires k < |s.calls|
  {
    s.(calls := s.calls[k := c])
  }

  function Apply(s: Store, e: Event): Store {
    match e
    case Tick(ticks) => s.(now := s.now + ticks)
    case SetSystem(system) => s.(system := system)
    case SetPermissions(agent, granted) => s.(permissions := s.permissions[agent := granted])
    case CreateRule(rule) => s.(rules := s.rules + [rule.(count := 0)])
    case CreateRequest(mission, action, target, risk, plan, expiresAt) =>
      s.(approvals := s.approvals
           + [Approval(mission, action, target, risk, plan, Fingerprint(action, target, plan), Pending, expiresAt, None)])
    case Decide(id, decision) =>
      if id < |s.approvals| && s.approvals[id].state == Pending && decision != Pending
      then s.(approvals := s.approvals[id := s.approvals[id].(state := decision, decidedAt := Some(s.now))])
      else s
    case Begin(request) => s.(calls := s.calls + [Begun(s, request)])
    case ReadPermission(k) =>
      if !InStage(s, k, NeedPermission) then s
      else Step(s, k, s.calls[k].(stage := NeedMode, permitted := Permitted(s.permissions, s.calls[k].request)))
    case ReadMode(k) =>
      if !InStage(s, k, NeedMode) then s
      else Step(s, k, s.calls[k].(stage := NeedApprovals, system := s.system))
    case ReadApprovals(k) =>
      if !InStage(s, k, NeedApprovals) then s
      else
        var request := s.calls[k].request;
        Step(s, k, s.calls[k].(stage := NeedRules, approvalReadAt := s.now,
                               approval := FindApproved(s.approvals, request.mission, RequestFingerprint(request), s.now)))
    case ReadRules(k) =>
      if !InStage(s, k, NeedRules) then s
      else
        var c := s.calls[k].(rule := FindRule(s.rules, s.calls[k].request, s.now));
        Step(s, k, c.(stage := Judged(c)))
    case AskApproval(k) =>
      if !InStage(s, k, NeedRequest) then s
      else
        var request := s.calls[k].request;
        var pending := FindPending(s.approvals, request.mission, RequestFingerprint(request), s.now);
        if pending.Some? then Step(s, k, s.calls[k].(stage := Done(Waiting(pending.value))))
        else Step(s, k, s.calls[k].(stage := Done(Waiting(|s.approvals|))))
             .(approvals := s.approvals + [NewApproval(s, request)])
    case Consume(k) =>
      if !InStage(s, k, NeedCharge) || s.calls[k].rule.None? then s
      else
        var r := s.calls[k].rule.value;
        if Consumable(s, r) then
          Step(s, k, s.calls[k].(stage := NeedAdapter, charge := Some(r), chargedAt := s.now))
          .(rules := s.rules[r := s.rules[r].(count := s.rules[r].count + 1)])
        else Step(s, k, s.calls[k].(stage := Done(Blocked)))
    case Invoke(k, succeeded) =>
      if !InStage(s, k, NeedAdapter) then s
      else Step(s, k, s.calls[k].(stage := Done(if succeeded then Executed else Failed), invokedAt := Some(s.now)))
  }

  // ---------- counting ----------

  predicate ChargedTo(c: Call, r: nat) {
    c.charge == Some(r)
  }

  predicate MutatedUnder(c: Call, r: nat) {
    c.request.mutates && c.invokedAt.Some? && c.charge == Some(r)
  }

  function Charges(calls: seq<Call>, r: nat): nat {
    if calls == [] then 0
    else Charges(calls[..|calls| - 1], r) + (if ChargedTo(calls[|calls| - 1], r) then 1 else 0)
  }

  function Mutations(calls: seq<Call>, r: nat): nat {
    if calls == [] then 0
    else Mutations(calls[..|calls| - 1], r) + (if MutatedUnder(calls[|calls| - 1], r) then 1 else 0)
  }

  lemma {:induction false} MutationsWithinCharges(calls: seq<Call>, r: nat)
    ensures Mutations(calls, r) <= Charges(calls, r)
    decreases |calls|
  {
    if calls != [] {
      MutationsWithinCharges(calls[..|calls| - 1], r);
    }
  }

  lemma {:induction false} ChargesAfter(calls: seq<Call>, k: nat, c: Call, r: nat)
    requires k < |calls|
    ensures Charges(calls[k := c], r)
            == Charges(calls, r) - (if ChargedTo(calls[k], r) then 1 else 0) + (if ChargedTo(c, r) then 1 else 0)
    decreases |calls|
  {
    var front := calls[..|calls| - 1];
    if k == |front| {
      assert calls[k := c][..|calls| - 1] == front;
    } else {
      assert calls[k := c][..|calls| - 1] == front[k := c];
      ChargesAfter(front, k, c, r);
    }
  }

  lemma ChargesAppend(calls: seq<Call>, c: Call, r: nat)
    ensures Charges(calls + [c], r) == Charges(calls, r) + (if ChargedTo(c, r) then 1 else 0)
  {
  }

  // ---------- what every history keeps ----------

  predicate ApprovalSound(a: Approval, now: int) {
    && a.fingerprint == Fingerprint(a.action, a.target, a.plan)
    && (a.state == Pending <==> a.decidedAt.None?)
    && (a.decidedAt.Some? ==> a.decidedAt.value <= now)
  }

  /** The human approval a call found: same mission, same fingerprint, decided before it was read, not expired then. */
  predicate ApprovedBy(s: Store, c: Call, id: nat) {
    && id < |s.approvals|
    && var a := s.approvals[id];
       && a.state == Approved && a.mission == c.request.mission && a.fingerprint == RequestFingerprint(c.request)
       && a.decidedAt.Some? && a.decidedAt.value <= c.approvalReadAt < a.expiresAt
  }

  /** The rule a call found: same action, target, risk and conditions, and not RED. */
  predicate RuledBy(s: Store, c: Call, r: nat) {
    && r < |s.rules| && c.request.risk != Red
    && s.rules[r].action == c.request.capability && s.rules[r].target == c.request.target
    && s.rules[r].risk == c.request.risk && s.rules[r].conditions == c.request.conditions
  }

  predicate CallSound(s: Store, c: Call) {
    && c.approvalReadAt <= s.now
    && (c.approval.Some? ==> ApprovedBy(s, c, c.approval.value))
    && (c.rule.Some? ==> RuledBy(s, c, c.rule.value))
    && (c.charge.Some? ==> c.rule == c.charge && c.chargedAt < s.rules[c.charge.value].expiresAt && c.chargedAt <= s.now)
    && (c.stage == NeedCharge ==> Verdict(c) == Allow && c.charge.None? && c.request.mutates && c.rule.Some?)
    && (c.stage == NeedAdapter || c.invokedAt.Some? ==>
          Verdict(c) == Allow && (c.request.mutates && c.rule.Some? ==> c.charge == c.rule))
    && (c.stage != NeedAdapter && c.invokedAt.None? && !c.stage.Done? ==> c.charge.None?)
    && (c.invokedAt.Some? ==> c.stage.Done? && c.invokedAt.value <= s.now)
    && (c.stage == Done(Executed) || c.stage == Done(Failed) ==> c.invokedAt.Some?)
    && (c.invokedAt.Some? ==> c.approvalReadAt <= c.invokedAt.value && (c.charge.Some? ==> c.chargedAt <= c.invokedAt.value))
  }

  /** A negative limit admits nothing. */
  function Limit(maxCount: int): nat {
    if maxCount < 0 then 0 else maxCount
  }

  ghost predicate RuleSound(s: Store, r: nat)
    requires r < |s.rules|
  {
    && s.rules[r].count == Charges(s.calls, r)
    && (s.rules[r].maxCount.Some? ==> s.rules[r].count <= Limit(s.rules[r].maxCount.value))
  }

  ghost predicate Inv(s: Store) {
    && (forall i :: 0 <= i < |s.approvals| ==> ApprovalSound(s.approvals[i], s.now))
    && (forall k :: 0 <= k < |s.calls| ==> CallSound(s, s.calls[k]))
    && (forall r :: 0 <= r < |s.rules| ==> RuleSound(s, r))
  }

  /** What may happen to the tables: decisions and rule terms are permanent, counters only grow. */
  predicate ApprovalGrown(a: Approval, b: Approval) {
    b == a || (a.state == Pending && b == a.(state := b.state, decidedAt := b.decidedAt))
  }

  predicate RuleGrown(a: Rule, b: Rule) {
    a.count <= b.count && b == a.(count := b.count)
  }

  ghost predicate Later(s: Store, t: Store) {
    && s.now <= t.now && t.capabilities == s.capabilities && t.lifetime == s.lifetime
    && |s.approvals| <= |t.approvals| && (forall i :: 0 <= i < |s.approvals| ==> ApprovalGrown(s.approvals[i], t.approvals[i]))
    && |s.rules| <= |t.rules| && (forall r :: 0 <= r < |s.rules| ==> RuleGrown(s.rules[r], t.rules[r]))
    && |s.calls| <= |t.calls| && (forall k :: 0 <= k < |s.calls| ==> t.calls[k].request == s.calls[k].request)
  }

  lemma CallStays(s: Store, t: Store, c: Call)
    requires CallSound(s, c) && Later(s, t)
    ensures CallSound(t, c)
  {
  }

  /** Rewriting one call that charges nothing new. */
  lemma StepKeeps(s: Store, k: nat, c: Call)
    requires Inv(s) && k < |s.calls| && CallSound(s, c)
    requires c.charge == s.calls[k].charge && c.request == s.calls[k].request
    ensures Inv(Step(s, k, c)) && Later(s, Step(s, k, c))
  {
    hide Fingerprint, Charges;
    var t := Step(s, k, c);
    forall j | 0 <= j < |t.calls|
      ensures CallSound(t, t.calls[j])
    {
      CallStays(s, t, if j == k then c else s.calls[j]);
    }
    forall r | 0 <= r < |t.rules|
      ensures RuleSound(t, r)
    {
      assert RuleSound(s, r);
      ChargesAfter(s.calls, k, c, r);
    }
  }

  /** Changing the approvals and the clock only. */
  lemma ApprovalsKeep(s: Store, t: Store)
    requires Inv(s) && Later(s, t)
    requires t.calls == s.calls && t.rules == s.rules
    requires forall i :: 0 <= i < |t.approvals| ==> ApprovalSound(t.approvals[i], t.now)
    ensures Inv(t)
  {
    hide Fingerprint, Charges;
    forall j | 0 <= j < |t.calls|
      ensures CallSound(t, t.calls[j])
    {
      CallStays(s, t, s.calls[j]);
    }
    forall r | 0 <= r < |t.rules|
      ensures RuleSound(t, r)
    {
      assert RuleSound(s, r);
    }
  }

  lemma ConsumeKeeps(s: Store, k: nat)
    requires Inv(s) && InStage(s, k, NeedCharge)
    ensures Inv(Apply(s, Consume(k))) && Later(s, Apply(s, Consume(k)))
  {
    hide Fingerprint, Charges;
    var c := s.calls[k];
    assert CallSound(s, c);
    var r := c.rule.value;
    if Consumable(s, r) {
      var t := Apply(s, Consume(k));
      assert Later(s, t);
      forall j | 0 <= j < |t.calls|
        ensures CallSound(t, t.calls[j])
      {
        CallStays(s, t, s.calls[j]);
      }
      forall q | 0 <= q < |t.rules|
        ensures RuleSound(t, q)
      {
        assert RuleSound(s, q);
        ChargesAfter(s.calls, k, t.calls[k], q);
      }
    } else {
      StepKeeps(s, k, c.(stage := Done(Blocked)));
    }
  }

  lemma AskKeeps(s: Store, k: nat)
    requires Inv(s) && InStage(s, k, NeedRequest)
    ensures Inv(Apply(s, AskApproval(k))) && Later(s, Apply(s, AskApproval(k)))
  {
    hide Fingerprint, Charges;
    var c := s.calls[k];
    assert CallSound(s, c);
    var pending := FindPending(s.approvals, c.request.mission, RequestFingerprint(c.request), s.now);
    if pending.Some? {
      StepKeeps(s, k, c.(stage := Done(Waiting(pending.value))));
    } else {
      var s1 := Step(s, k, c.(stage := Done(Waiting(|s.approvals|))));
      StepKeeps(s, k, c.(stage := Done(Waiting(|s.approvals|))));
      ApprovalsKeep(s1, s1.(approvals := s.approvals + [NewApproval(s, c.request)]));
    }
  }

  lemma NewRowKeeps(s: Store, e: Event)
    requires Inv(s) && (e.CreateRule? || e.Begin?)
    ensures Inv(Apply(s, e)) && Later(s, Apply(s, e))
  {
    hide Fingerprint, Charges;
    var t := Apply(s, e);
    assert Later(s, t);
    forall j | 0 <= j < |t.calls|
      ensures CallSound(t, t.calls[j])
    {
      if j < |s.calls| {
        CallStays(s, t, s.calls[j]);
      }
    }
    forall r | 0 <= r < |t.rules|
      ensures RuleSound(t, r)
    {
      if r < |s.rules| {
        assert RuleSound(s, r);
      } else {
        UnseenRule(s, r);
      }
      if e.Begin? {
        ChargesAppend(s.calls, Begun(s, e.request), r);
      }
    }
  }

  lemma {:induction false} NoCharges(calls: seq<Call>, r: nat)
    requires forall k :: 0 <= k < |calls| ==> !ChargedTo(calls[k], r)
    ensures Charges(calls, r) == 0
    decreases |calls|
  {
    if calls != [] {
      NoCharges(calls[..|calls| - 1], r);
    }
  }

  /** No call has been charged to a rule that does not exist yet. */
  lemma UnseenRule(s: Store, r: nat)
    requires Inv(s) && r >= |s.rules|
    ensures Charges(s.calls, r) == 0
  {
    hide Fingerprint;
    forall k | 0 <= k < |s.calls|
      ensures !ChargedTo(s.calls[k], r)
    {
      assert CallSound(s, s.calls[k]);
    }
    NoCharges(s.calls, r);
  }

  lemma ReadKeeps(s: Store, k: nat, e: Event)
    requires Inv(s) && k < |s.calls|
    requires e in {ReadPermission(k), ReadMode(k), ReadApprovals(k), ReadRules(k)} || (e.Invoke? && e.call == k)
    ensures Inv(Apply(s, e)) && Later(s, Apply(s, e))
  {
    hide Fingerprint, Charges;
    var t := Apply(s, e);
    if t != s {
      ReadSound(s, k, e);
      hide Apply, CallSound;
      StepKeeps(s, k, t.calls[k]);
    }
  }

  /** The call written back by a read or by the adapter. */
  lemma ReadSound(s: Store, k: nat, e: Event)
    requires Inv(s) && k < |s.calls| && Apply(s, e) != s
    requires e in {ReadPermission(k), ReadMode(k), ReadApprovals(k), ReadRules(k)} || (e.Invoke? && e.call == k)
    ensures |Apply(s, e).calls| == |s.calls|
    ensures Apply(s, e) == Step(s, k, Apply(s, e).calls[k]) && CallSound(s, Apply(s, e).calls[k])
    ensures Apply(s, e).calls[k].charge == s.calls[k].charge && Apply(s, e).calls[k].request == s.calls[k].request
  {
    hide Fingerprint, Charges;
    assert CallSound(s, s.calls[k]);
    if e.ReadApprovals? {
      var c := Apply(s, e).calls[k];
      if c.approval.Some? {
        assert ApprovalSound(s.approvals[c.approval.value], s.now);
      }
    }
  }

  lemma EventKeeps(s: Store, e: Event)
    requires Inv(s)
    ensures Inv(Apply(s, e)) && Later(s, Apply(s, e))
  {
    hide Fingerprint, Charges, CallSound;
    match e
    case Tick(_) => ApprovalsKeep(s, Apply(s, e));
    case SetSystem(_) => ApprovalsKeep(s, Apply(s, e));
    case SetPermissions(_, _) => ApprovalsKeep(s, Apply(s, e));
    case CreateRule(_) => NewRowKeeps(s, e);
    case CreateRequest(_, _, _, _, _, _) => ApprovalsKeep(s, Apply(s, e));
    case Decide(_, _) => ApprovalsKeep(s, Apply(s, e));
    case Begin(_) => NewRowKeeps(s, e);
    case ReadPermission(k) => if k < |s.calls| { ReadKeeps(s, k, e); }
    case ReadMode(k) => if k < |s.calls| { ReadKeeps(s, k, e); }
    case ReadApprovals(k) => if k < |s.calls| { ReadKeeps(s, k, e); }
    case ReadRules(k) => if k < |s.calls| { ReadKeeps(s, k, e); }
    case AskApproval(k) => if InStage(s, k, NeedRequest) { AskKeeps(s, k); }
    case Consume(k) => if InStage(s, k, NeedCharge) { ConsumeKeeps(s, k); }
    case Invoke(k, _) => if k < |s.calls| { ReadKeeps(s, k, e); }
  }

  lemma RunKeeps(s: Store, es: seq<Event>)
    requires Inv(s)
    ensures Inv(Runs.Replay(Apply, s, es)) && Later(s, Runs.Replay(Apply, s, es))
  {
    hide Apply, Inv, Later;
    forall t, e | Inv(t)
      ensures Inv(Apply(t, e)) && Later(t, Apply(t, e))
    {
      EventKeeps(t, e);
    }
    forall t
      ensures Later(t, t)
    {
      LaterReflexive(t);
    }
    forall t, u, v | Later(t, u) && Later(u, v)
      ensures Later(t, v)
    {
      LaterTransitive(t, u, v);
    }
    Runs.Ordered(Apply, Inv, Later, s, es);
  }

  lemma LaterReflexive(t: Store)
    ensures Later(t, t)
  {
  }

  lemma LaterTransitive(t: Store, u: Store, v: Store)
    requires Later(t, u) && Later(u, v)
    ensures Later(t, v)
  {
  }

  // ---------- main results ----------

  /** The call was evaluated in NORMAL mode, outside simulation, with the exact permission. */
  predicate EvaluatedInNormalMode(c: Call) {
    c.system == Available(Normal, false) && c.permitted && c.request.risk != Red
  }

  /** The approval was asked for this mission, with this capability and target and exactly these parameters. */
  predicate AskedFor(a: Approval, request: ToolRequest) {
    && a.mission == request.mission && a.action == request.capability && a.target == request.target
    && CanonicalJson.Holds(a.plan, "capability", CanonicalJson.Str(request.capability))
    && CanonicalJson.Holds(a.plan, "target", CanonicalJson.Str(request.target))
    && CanonicalJson.Holds(a.plan, "params", request.params)
  }

  /** A human approved exactly this action before the call read the approval, and it had not expired then. */
  predicate HumanApproved(s: Store, c: Call) {
    && c.approval.Some? && c.approval.value < |s.approvals|
    && var a := s.approvals[c.approval.value];
       && a.state == Approved && AskedFor(a, c.request)
       && a.decidedAt.Some? && a.decidedAt.value <= c.approvalReadAt < a.expiresAt
  }

  /** The call consumed an unexpired rule made for its action, target, risk and conditions. */
  predicate RuleConsumed(s: Store, c: Call) {
    c.charge.Some? && RuledBy(s, c, c.charge.value) && c.chargedAt < s.rules[c.charge.value].expiresAt
  }

  /**
   In every history, each mutating adapter invocation was evaluated in NORMAL mode and follows a human approval
   of exactly its capability, target and parameters or, for a BLUE action, the consumption of a matching rule.
   */
  lemma EveryMutationIsAuthorised(capabilities: set<string>, lifetime: int, now: int, es: seq<Event>, k: nat)
    requires k < |Runs.Replay(Apply, Init(capabilities, lifetime, now), es).calls|
    ensures var s := Runs.Replay(Apply, Init(capabilities, lifetime, now), es);
            var c := s.calls[k];
            c.request.mutates && c.invokedAt.Some? ==>
              && EvaluatedInNormalMode(c)
              && (HumanApproved(s, c) || (c.request.risk == Blue && RuleConsumed(s, c)))
              && (c.rule.Some? ==> RuleConsumed(s, c))
  {
    hide Apply;
    RunKeeps(Init(capabilities, lifetime, now), es);
    InvokedIsAuthorised(Runs.Replay(Apply, Init(capabilities, lifetime, now), es), k);
  }

  lemma InvokedIsAuthorised(s: Store, k: nat)
    requires Inv(s) && k < |s.calls|
    ensures var c := s.calls[k];
            c.request.mutates && c.invokedAt.Some? ==>
              && EvaluatedInNormalMode(c)
              && (HumanApproved(s, c) || (c.request.risk == Blue && RuleConsumed(s, c)))
              && (c.rule.Some? ==> RuleConsumed(s, c))
  {
    var c := s.calls[k];
    assert CallSound(s, c);
    if c.approval.Some? {
      var a := s.approvals[c.approval.value];
      assert ApprovalSound(a, s.now);
      if c.invokedAt.Some? {
        FingerprintIdentifies(a.action, a.target, a.plan, c.request.capability, c.request.target, ActionPlan(c.request));
        PlanNamesRequest(c.request);
      }
    }
  }

  /** In every history: mutations charged to a rule <= its counter = its successful consumptions <= its limit. */
  lemma RulesAreNeverOverspent(capabilities: set<string>, lifetime: int, now: int, es: seq<Event>, r: nat)
    requires r < |Runs.Replay(Apply, Init(capabilities, lifetime, now), es).rules|
    ensures var s := Runs.Replay(Apply, Init(capabilities, lifetime, now), es);
            && Mutations(s.calls, r) <= Charges(s.calls, r) == s.rules[r].count
            && (s.rules[r].maxCount.Some? ==> s.rules[r].count <= Limit(s.rules[r].maxCount.value))
  {
    hide Apply;
    RunKeeps(Init(capabilities, lifetime, now), es);
    var s := Runs.Replay(Apply, Init(capabilities, lifetime, now), es);
    assert RuleSound(s, r);
    MutationsWithinCharges(s.calls, r);
  }
}
