/** The safety decision table (src/ai_hq/safety/policy.py) and the requests it judges. */
module SafetyPolicy {
  import opened Prelude
  import CanonicalJson

  type Json = CanonicalJson.Json

  datatype Risk = Green | Blue | Amber | Red

  datatype Mode = Safe | Normal | Freeze

  datatype Decision = Allow | RequireApproval | SimulateOnly | Block

  datatype ToolRequest = ToolRequest(
    mission: nat, agent: string, capability: string, target: string, risk: Risk,
    params: Json, conditions: Json, mutates: bool)

  datatype ActionIntent = ActionIntent(
    risk: Risk, mutates: bool, scopedRuleAllows: bool, approved: bool, authorizationAvailable: bool)

  /** A mutating action is allowed exactly in NORMAL mode, outside simulation, with a permission and an authority. */
  function EvaluateAction(intent: ActionIntent, mode: Mode, simulation: bool): (d: Decision)
    ensures d == Block <==> !intent.authorizationAvailable || mode.Freeze? || intent.risk.Red? || (mode.Safe? && intent.mutates)
    ensures intent.mutates ==>
              (d == Allow <==>
                 && intent.authorizationAvailable && mode.Normal? && !simulation && !intent.risk.Red?
                 && (if intent.risk.Blue? then intent.scopedRuleAllows else intent.approved))
    ensures d == RequireApproval <==>
            && intent.authorizationAvailable && !mode.Freeze? && !intent.risk.Red? && !(mode.Safe? && intent.mutates)
            && (|| (intent.risk.Blue? && !intent.scopedRuleAllows)
                || (intent.risk.Amber? && !intent.approved)
                || (intent.risk.Green? && intent.mutates && !intent.approved))
    ensures d == SimulateOnly ==> intent.mutates && simulation
  {
    if !intent.authorizationAvailable || mode.Freeze? then Block
    else if intent.risk.Red? then Block
    else if mode.Safe? && intent.mutates then Block
    else if intent.risk.Blue? && !intent.scopedRuleAllows then RequireApproval
    else if intent.risk.Amber? && !intent.approved then RequireApproval
    else if intent.risk.Green? && intent.mutates && !intent.approved then RequireApproval
    else if intent.mutates && simulation then SimulateOnly
    else Allow
  }

  /** The action plan a request is fingerprinted with. */
  function ActionPlan(r: ToolRequest): Json {
    CanonicalJson.Obj([
      CanonicalJson.Field("capability", CanonicalJson.Str(r.capability)),
      CanonicalJson.Field("params", r.params),
      CanonicalJson.Field("target", CanonicalJson.Str(r.target))])
  }

  function Payload(action: string, target: string, plan: Json): Json {
    CanonicalJson.Obj([
      CanonicalJson.Field("action", CanonicalJson.Str(action)),
      CanonicalJson.Field("action_plan", plan),
      CanonicalJson.Field("target", CanonicalJson.Str(target))])
  }

  /** `canonical_action_fingerprint`, with SHA-256 represented by the text it digests. */
  function Fingerprint(action: string, target: string, plan: Json): string {
    CanonicalJson.Dump(true, Payload(action, target, plan))
  }

  function RequestFingerprint(r: ToolRequest): string {
    Fingerprint(r.capability, r.target, ActionPlan(r))
  }

  /** Equal fingerprints mean the same action on the same target with the same plan. */
  lemma FingerprintIdentifies(a: string, t: string, p: Json, a': string, t': string, p': Json)
    requires Fingerprint(a, t, p) == Fingerprint(a', t', p')
    ensures a == a' && t == t' && p == p'
  {
    hide CanonicalJson.Dump;
    var x, y := Payload(a, t, p), Payload(a', t', p');
    CanonicalJson.TextIsInjective(x, y);
    assert x.fields[0] == y.fields[0] && x.fields[1] == y.fields[1] && x.fields[2] == y.fields[2];
  }

  /** Two requests share a fingerprint exactly when they name the same capability, target and parameters. */
  lemma RequestFingerprintIdentifies(r: ToolRequest, q: ToolRequest)
    ensures RequestFingerprint(r) == RequestFingerprint(q) <==>
            r.capability == q.capability && r.target == q.target && r.params == q.params
  {
    hide CanonicalJson.Dump;
    if RequestFingerprint(r) == RequestFingerprint(q) {
      var a, b := ActionPlan(r), ActionPlan(q);
      FingerprintIdentifies(r.capability, r.target, a, q.capability, q.target, b);
      assert a.fields[1] == b.fields[1];
    }
  }

  /** A request whose plan was approved: the plan says so under its own keys. */
  lemma PlanNamesRequest(r: ToolRequest)
    ensures CanonicalJson.Holds(ActionPlan(r), "capability", CanonicalJson.Str(r.capability))
    ensures CanonicalJson.Holds(ActionPlan(r), "target", CanonicalJson.Str(r.target))
    ensures CanonicalJson.Holds(ActionPlan(r), "params", r.params)
  {
    var fields := ActionPlan(r).fields;
    assert fields[0] in fields && fields[1] in fields && fields[2] in fields;
    assert "capability"[0] != "params"[0] && "params"[0] != "target"[0] && "target"[0] != "capability"[0];
  }
}
