/**
 The persisted handoff of one code change: proposal, QA, human approval, publication, deployment, rollback
 (src/ai_hq/delivery/service.py), together with the approval requests it rests on
 (src/ai_hq/approvals/service.py). Each service call is one transaction; any calls may follow each other.
 */
module Delivery {
  import opened Prelude
  import Runs
  import Text

  datatype MissionStatus = Queued | Running | AwaitingApproval | Paused | Completed | Abandoned | Cancelled

  datatype Mission = Mission(status: MissionStatus, source: string, owner: string, objectives: seq<string>)

  datatype ApprovalState = Pending | Approved | Denied | Withdrawn

  /** `planChangeRef` is the change reference inside the action plan, if it has one. */
  datatype Approval = Approval(
    mission: nat, target: string, planChangeRef: Option<string>, state: ApprovalState,
    createdAt: int, expiresAt: int, decidedAt: Option<int>)

  datatype Stage = Developer | Qa | WaitingApproval

  datatype QaResult = Passed | Failed

  datatype Proposal = Proposal(changeRef: string, summary: string, changedFiles: seq<string>, evidence: string)

  datatype Publication = Publication(branch: string, commit: string, tree: string)

  datatype Deployment = Deployment(release: string, prior: Option<string>)

  /** A recorded identity and when it was recorded. */
  datatype Record<T> = Record(identity: T, at: int)

  datatype Delivery = Delivery(
    stage: Stage,
    proposal: Proposal,
    qa: Option<QaResult>,
    approval: Option<nat>,
    published: Option<Record<Publication>>,
    deployed: Option<Record<Deployment>>,
    rolledBack: Option<Record<string>>)

  datatype Store = Store(missions: seq<Mission>, deliveries: map<nat, Delivery>, approvals: seq<Approval>, now: int)

  datatype Event =
    | Tick(ticks: nat)
    | CreateMission(details: Mission)
    | SetStatus(mission: nat, status: MissionStatus)
    | CreateRequest(mission: nat, target: string, planChangeRef: Option<string>, expiresAt: int)
    | Decide(id: nat, decision: ApprovalState)
    | Submit(mission: nat, proposal: Proposal)
    | RecordQa(mission: nat, changeRef: string, result: QaResult)
    | ApplyDecision(mission: nat, id: nat, changeRef: string)
    | Publish(mission: nat, changeRef: string, publication: Publication)
    | Deploy(mission: nat, changeRef: string, deployment: Deployment)
    | RollBack(mission: nat, changeRef: string, release: string)

  function Init(now: int): Store {
    Store([], map[], [], now)
  }

  // ---------- validity of recorded identities ----------

  const BRANCH_PREFIX := "ai-hq/candidate/"

  predicate ValidPublication(p: Publication) {
    BRANCH_PREFIX <= p.branch && Text.IsGitSha(p.commit) && Text.IsGitSha(p.tree)
  }

  predicate IsReleaseChar(c: char) {
    'A' <= c <= 'Z' || 'a' <= c <= 'z' || '0' <= c <= '9' || c == '.' || c == '_' || c == '-'
  }

  predicate ValidRelease(r: string) {
    0 < |r| <= 128 && Text.All(IsReleaseChar, r)
  }

  /** 1 to 128 characters, each an ASCII letter or digit, a dot, an underscore or a hyphen. */
  lemma ReleaseNames(r: string)
    ensures ValidRelease(r) <==>
            && 1 <= |r| <= 128
            && forall i :: 0 <= i < |r| ==>
                 || r[i] in "._-"
                 || 48 <= r[i] as int <= 57 || 65 <= r[i] as int <= 90 || 97 <= r[i] as int <= 122
  {
  }

  predicate ValidDeployment(d: Deployment) {
    ValidRelease(d.release) && (d.prior.Some? ==> ValidRelease(d.prior.value))
  }

  // ---------- the service calls: their result, before anything is written ----------

  function Find(s: Store, m: nat): Result<Delivery> {
    if m >= |s.missions| || m !in s.deliveries then Err(KeyError) else Ok(s.deliveries[m])
  }

  /** The request behind a reference, if it was made for this change and has not expired. */
  function Request(s: Store, m: nat, id: nat, changeRef: string): Result<Approval> {
    if id >= |s.approvals| then Err(KeyError)
    else
      var a := s.approvals[id];
      if a.mission != m || a.target != changeRef || a.planChangeRef != Some(changeRef) || a.expiresAt <= s.now then Err(ValueError)
      else Ok(a)
  }

  /** The checks common to publication, deployment and rollback up to the human approval. */
  function Ready(s: Store, m: nat, changeRef: string): Result<Delivery> {
    var found := Find(s, m);
    if found.Err? then found
    else
      var d := found.value;
      if d.proposal.changeRef != changeRef || d.stage != WaitingApproval || d.qa != Some(Passed) || d.approval.None? then Err(ValueError)
      else found
  }

  function Granted(s: Store, m: nat, d: Delivery, changeRef: string): Result<Delivery>
    requires d.approval.Some?
  {
    var request := Request(s, m, d.approval.value, changeRef);
    if request.Err? then Err(request.error)
    else if request.value.state != Approved then Err(ValueError)
    else Ok(d)
  }

  function Submitting(s: Store, m: nat, p: Proposal): Result<Delivery> {
    if Text.Strip(p.changeRef) == "" || Text.Strip(p.summary) == "" then Err(ValueError)
    else if m >= |s.missions| then Err(KeyError)
    else if m in s.deliveries || s.missions[m].status !in {Queued, Running} then Err(ValueError)
    else Ok(Delivery(Qa, p, None, None, None, None, None))
  }

  function Judging(s: Store, m: nat, changeRef: string, result: QaResult): Result<Delivery> {
    var found := Find(s, m);
    if found.Err? then found
    else
      var d := found.value;
      if d.stage != Qa || d.proposal.changeRef != changeRef then Err(ValueError)
      else if result == Failed then Ok(d.(qa := Some(Failed), stage := Developer, approval := None))
      else if s.missions[m].status != Running then Err(ValueError)
      else Ok(d.(qa := Some(Passed), stage := WaitingApproval, approval := Some(|s.approvals|)))
  }

  /** The request QA creates when a proposal passes: open for 24 hours. */
  function QaRequest(s: Store, m: nat, changeRef: string): Approval {
    Approval(m, changeRef, Some(changeRef), Pending, s.now, s.now + DAY, None)
  }

  function Applying(s: Store, m: nat, id: nat, changeRef: string): Result<Delivery> {
    var found := Find(s, m);
    if found.Err? then found
    else
      var d := found.value;
      if d.stage != WaitingApproval || d.approval != Some(id) || d.proposal.changeRef != changeRef then Err(ValueError)
      else
        var request := Request(s, m, id, changeRef);
        if request.Err? then Err(request.error)
        else if request.value.state == Pending then Err(ValueError)
        else if request.value.state == Approved then found
        else Ok(d.(stage := Developer, approval := None))
  }

  function Publishing(s: Store, m: nat, changeRef: string, p: Publication): Result<Delivery> {
    if !ValidPublication(p) then Err(ValueError)
    else
      var ready := Ready(s, m, changeRef);
      if ready.Err? then ready
      else
        var d := ready.value;
        var granted := Granted(s, m, d, changeRef);
        if granted.Err? then granted
        else if d.published.Some? then (if d.published.value.identity == p then granted else Err(ValueError))
        else Ok(d.(published := Some(Record(p, s.now))))
  }

  function Deploying(s: Store, m: nat, changeRef: string, r: Deployment): Result<Delivery> {
    if !ValidDeployment(r) then Err(ValueError)
    else
      var ready := Ready(s, m, changeRef);
      if ready.Err? then ready
      else
        var d := ready.value;
        if d.published.None? then Err(ValueError)
        else
          var granted := Granted(s, m, d, changeRef);
          if granted.Err? then granted
          else if d.deployed.Some? then (if d.deployed.value.identity == r then granted else Err(ValueError))
          else Ok(d.(deployed := Some(Record(r, s.now))))
  }

  function RollingBack(s: Store, m: nat, changeRef: string, release: string): Result<Delivery> {
    if !ValidRelease(release) then Err(ValueError)
    else
      var ready := Ready(s, m, changeRef);
      if ready.Err? then ready
      else
        var d := ready.value;
        if d.published.None? || d.deployed.None? || d.deployed.value.identity.prior != Some(release) then Err(ValueError)
        else
          var granted := Granted(s, m, d, changeRef);
          if granted.Err? then granted
          else if d.rolledBack.Some? then (if d.rolledBack.value.identity == release then granted else Err(ValueError))
          else Ok(d.(rolledBack := Some(Record(release, s.now))))
  }

  // ---------- the transactions ----------

  /** Writes a delivery if the call returned one. */
  function Save(s: Store, m: nat, r: Result<Delivery>): Store {
    if r.Ok? then s.(deliveries := s.deliveries[m := r.value]) else s
  }

  function WithStatus(s: Store, m: nat, status: MissionStatus): Store {
    if m < |s.missions| then s.(missions := s.missions[m := s.missions[m].(status := status)]) else s
  }

  function Apply(s: Store, e: Event): Store {
    match e
    case Tick(ticks) => s.(now := s.now + ticks)
    case CreateMission(details) => s.(missions := s.missions + [details])
    case SetStatus(m, status) => WithStatus(s, m, status)
    case CreateRequest(m, target, plan, expiresAt) =>
      s.(approvals := s.approvals + [Approval(m, target, plan, Pending, s.now, expiresAt, None)])
    case Decide(id, decision) =>
      if id < |s.approvals| && s.approvals[id].state == Pending && decision != Pending
      then s.(approvals := s.approvals[id := s.approvals[id].(state := decision, decidedAt := Some(s.now))])
      else s
    case Submit(m, p) =>
      var r := Submitting(s, m, p);
      if r.Err? then s else WithStatus(Save(s, m, r), m, Running)
    case RecordQa(m, changeRef, result) =>
      var r := Judging(s, m, changeRef, result);
      if r.Err? then s
      else if result == Failed then Save(s, m, r)
      else WithStatus(Save(s, m, r), m, AwaitingApproval).(approvals := s.approvals + [QaRequest(s, m, changeRef)])
    case ApplyDecision(m, id, changeRef) =>
      var r := Applying(s, m, id, changeRef);
      if r.Err? || r.value.approval.Some? then s else WithStatus(Save(s, m, r), m, Running)
    case Publish(m, changeRef, p) => Save(s, m, Publishing(s, m, changeRef, p))
    case Deploy(m, changeRef, r) => Save(s, m, Deploying(s, m, changeRef, r))
    case RollBack(m, changeRef, release) => Save(s, m, RollingBack(s, m, changeRef, release))
  }

  // ---------- exactly when each call is accepted, and what it does ----------

  /** QA passed, and the human approval made for exactly this proposal stands. */
  predicate InForce(s: Store, m: nat, changeRef: string) {
    && m < |s.missions| && m in s.deliveries
    && var d := s.deliveries[m];
       && d.proposal.changeRef == changeRef && d.stage == WaitingApproval && d.qa == Some(Passed)
       && d.approval.Some? && d.approval.value < |s.approvals|
       && var a := s.approvals[d.approval.value];
          && a.mission == m && a.target == changeRef && a.planChangeRef == Some(changeRef)
          && a.state == Approved && s.now < a.expiresAt
  }

  lemma SubmitExactly(s: Store, m: nat, p: Proposal)
    ensures Submitting(s, m, p).Ok? <==>
            && Text.Strip(p.changeRef) != "" && Text.Strip(p.summary) != ""
            && m < |s.missions| && m !in s.deliveries && s.missions[m].status in {Queued, Running}
    ensures Submitting(s, m, p).Ok? ==>
              var t := Apply(s, Submit(m, p));
              && m in t.deliveries && t.deliveries[m].stage == Qa && t.deliveries[m].proposal == p && t.deliveries[m].qa.None?
              && |t.missions| == |s.missions| && t.missions[m].status == Running && t.approvals == s.approvals
  {
    hide Text.Strip;
  }

  /** A failed proposal goes back to its developer; a passed one opens a request for 24 hours and waits for it. */
  lemma QaExactly(s: Store, m: nat, changeRef: string, result: QaResult)
    ensures Judging(s, m, changeRef, result).Ok? <==>
            && m < |s.missions| && m in s.deliveries
            && s.deliveries[m].stage == Qa && s.deliveries[m].proposal.changeRef == changeRef
            && (result == Passed ==> s.missions[m].status == Running)
    ensures Judging(s, m, changeRef, result).Ok? && result == Failed ==>
              var t := Apply(s, RecordQa(m, changeRef, result));
              && m in t.deliveries && t.deliveries[m] == s.deliveries[m].(qa := Some(Failed), stage := Developer, approval := None)
              && t.approvals == s.approvals && t.missions == s.missions
    ensures Judging(s, m, changeRef, result).Ok? && result == Passed ==>
              var t := Apply(s, RecordQa(m, changeRef, result));
              && m in t.deliveries
              && t.deliveries[m] == s.deliveries[m].(qa := Some(Passed), stage := WaitingApproval, approval := Some(|s.approvals|))
              && t.approvals == s.approvals + [Approval(m, changeRef, Some(changeRef), Pending, s.now, s.now + 86_400_000_000, None)]
              && |t.missions| == |s.missions| && t.missions[m].status == AwaitingApproval
  {
  }

  /** A decision that has been made in time is applied: approval changes nothing, anything else sends the delivery back. */
  lemma DecisionExactly(s: Store, m: nat, id: nat, changeRef: string)
    ensures Applying(s, m, id, changeRef).Ok? <==>
            && m < |s.missions| && m in s.deliveries && s.deliveries[m].stage == WaitingApproval
            && s.deliveries[m].approval == Some(id) && s.deliveries[m].proposal.changeRef == changeRef
            && id < |s.approvals| && s.approvals[id].mission == m && s.approvals[id].target == changeRef
            && s.approvals[id].planChangeRef == Some(changeRef) && s.now < s.approvals[id].expiresAt
            && s.approvals[id].state != Pending
    ensures Applying(s, m, id, changeRef).Ok? && s.approvals[id].state == Approved ==>
              Applying(s, m, id, changeRef).value == s.deliveries[m] && Apply(s, ApplyDecision(m, id, changeRef)) == s
    ensures Applying(s, m, id, changeRef).Ok? && s.approvals[id].state in {Denied, Withdrawn} ==>
              var t := Apply(s, ApplyDecision(m, id, changeRef));
              && m in t.deliveries && t.deliveries[m] == s.deliveries[m].(stage := Developer, approval := None)
              && |t.missions| == |s.missions| && t.missions[m].status == Running && t.approvals == s.approvals
  {
  }

  /** Recorded under an approval in force, once: the identity asked for, with the time it was first recorded. */
  lemma PublicationExactly(s: Store, m: nat, changeRef: string, p: Publication)
    ensures Publishing(s, m, changeRef, p).Ok? <==>
            && "ai-hq/candidate/" <= p.branch && Text.IsGitSha(p.commit) && Text.IsGitSha(p.tree) && InForce(s, m, changeRef)
            && (s.deliveries[m].published.Some? ==> s.deliveries[m].published.value.identity == p)
    ensures Publishing(s, m, changeRef, p).Ok? ==>
              Publishing(s, m, changeRef, p).value
              == if s.deliveries[m].published.Some? then s.deliveries[m] else s.deliveries[m].(published := Some(Record(p, s.now)))
  {
    hide Text.IsGitSha;
  }

  lemma DeploymentExactly(s: Store, m: nat, changeRef: string, r: Deployment)
    ensures Deploying(s, m, changeRef, r).Ok? <==>
            && ValidRelease(r.release) && (r.prior.Some? ==> ValidRelease(r.prior.value)) && InForce(s, m, changeRef)
            && s.deliveries[m].published.Some?
            && (s.deliveries[m].deployed.Some? ==> s.deliveries[m].deployed.value.identity == r)
    ensures Deploying(s, m, changeRef, r).Ok? ==>
              Deploying(s, m, changeRef, r).value
              == if s.deliveries[m].deployed.Some? then s.deliveries[m] else s.deliveries[m].(deployed := Some(Record(r, s.now)))
  {
    hide ValidRelease;
  }

  lemma RollbackExactly(s: Store, m: nat, changeRef: string, release: string)
    ensures RollingBack(s, m, changeRef, release).Ok? <==>
            && ValidRelease(release) && InForce(s, m, changeRef) && s.deliveries[m].published.Some? && s.deliveries[m].deployed.Some?
            && s.deliveries[m].deployed.value.identity.prior == Some(release)
            && (s.deliveries[m].rolledBack.Some? ==> s.deliveries[m].rolledBack.value.identity == release)
    ensures RollingBack(s, m, changeRef, release).Ok? ==>
              RollingBack(s, m, changeRef, release).value
              == if s.deliveries[m].rolledBack.Some? then s.deliveries[m] else s.deliveries[m].(rolledBack := Some(Record(release, s.now)))
  {
    hide ValidRelease;
  }

  // ---------- what every run keeps ----------

  predicate ApprovalSound(a: Approval, now: int) {
    && a.createdAt <= now && (a.state == Pending <==> a.decidedAt.None?)
    && (a.decidedAt.Some? ==> a.createdAt <= a.decidedAt.value <= now)
  }

  /** The request a delivery waits on is the one QA made for exactly this proposal. */
  predicate RequestedFor(a: Approval, m: nat, d: Delivery) {
    && a.mission == m && a.target == d.proposal.changeRef && a.planChangeRef == Some(d.proposal.changeRef)
    && a.expiresAt == a.createdAt + DAY
  }

  /** Recorded while approved and unexpired, and not before `since`. */
  predicate Within(a: Approval, since: int, at: int, now: int) {
    a.state == Approved && a.decidedAt.Some? && a.decidedAt.value <= at && since <= at < a.expiresAt && at <= now
  }

  predicate ChainSound(d: Delivery, a: Approval, now: int) {
    && (d.published.Some? ==>
          ValidPublication(d.published.value.identity) && Within(a, a.createdAt, d.published.value.at, now))
    && (d.deployed.Some? ==>
          && d.published.Some? && ValidDeployment(d.deployed.value.identity)
          && Within(a, d.published.value.at, d.deployed.value.at, now))
    && (d.rolledBack.Some? ==>
          && d.deployed.Some? && d.deployed.value.identity.prior == Some(d.rolledBack.value.identity)
          && Within(a, d.deployed.value.at, d.rolledBack.value.at, now))
  }

  predicate Untouched(d: Delivery) {
    d.published.None? && d.deployed.None? && d.rolledBack.None?
  }

  predicate DeliverySound(approvals: seq<Approval>, m: nat, d: Delivery, now: int) {
    match d.stage
    case WaitingApproval =>
      && d.qa == Some(Passed) && d.approval.Some? && d.approval.value < |approvals|
      && RequestedFor(approvals[d.approval.value], m, d) && ChainSound(d, approvals[d.approval.value], now)
    case Qa => d.qa.None? && d.approval.None? && Untouched(d)
    case Developer => d.qa.Some? && d.approval.None? && Untouched(d)
  }

  ghost predicate Inv(s: Store) {
    && (forall id :: 0 <= id < |s.approvals| ==> ApprovalSound(s.approvals[id], s.now))
    && (forall m :: m in s.deliveries ==> m < |s.missions| && DeliverySound(s.approvals, m, s.deliveries[m], s.now))
  }

  predicate ApprovalGrown(a: Approval, b: Approval) {
    b == a || (a.state == Pending && b == a.(state := b.state, decidedAt := b.decidedAt))
  }

  predicate Kept<T(==)>(a: Option<T>, b: Option<T>) {
    a.Some? ==> b == a
  }

  /** Identities are written once; a proposal sent back to its developer stays there. */
  predicate DeliveryGrown(d: Delivery, e: Delivery) {
    && e.proposal == d.proposal
    && Kept(d.published, e.published) && Kept(d.deployed, e.deployed) && Kept(d.rolledBack, e.rolledBack)
    && (d.stage == Developer ==> e == d)
  }

  ghost predicate Later(s: Store, t: Store) {
    && s.now <= t.now
    && |s.approvals| <= |t.approvals| && (forall id :: 0 <= id < |s.approvals| ==> ApprovalGrown(s.approvals[id], t.approvals[id]))
    && (forall m :: m in s.deliveries ==> m in t.deliveries && DeliveryGrown(s.deliveries[m], t.deliveries[m]))
  }

  /** A step that changes the approvals, the missions or the clock, but no delivery. */
  lemma TablesKeep(s: Store, t: Store)
    requires Inv(s) && t.deliveries == s.deliveries && |s.missions| <= |t.missions| && |s.approvals| <= |t.approvals| && s.now <= t.now
    requires forall id :: 0 <= id < |s.approvals| ==> ApprovalGrown(s.approvals[id], t.approvals[id])
    requires forall id :: 0 <= id < |t.approvals| ==> ApprovalSound(t.approvals[id], t.now)
    ensures Inv(t) && Later(s, t)
  {
  }

  /** A step that writes one delivery. */
  lemma WriteKeeps(s: Store, m: nat, d: Delivery, status: MissionStatus, added: seq<Approval>)
    requires Inv(s) && m < |s.missions|
    requires forall i :: 0 <= i < |added| ==> ApprovalSound(added[i], s.now)
    requires DeliverySound(s.approvals + added, m, d, s.now)
    requires m in s.deliveries ==> DeliveryGrown(s.deliveries[m], d)
    ensures var t := WithStatus(Save(s, m, Ok(d)), m, status).(approvals := s.approvals + added);
            Inv(t) && Later(s, t)
  {
  }

  /** Saving without a new request and without a change of status. */
  lemma SaveKeeps(s: Store, m: nat, d: Delivery)
    requires Inv(s) && m in s.deliveries && DeliverySound(s.approvals, m, d, s.now) && DeliveryGrown(s.deliveries[m], d)
    ensures Inv(Save(s, m, Ok(d))) && Later(s, Save(s, m, Ok(d)))
  {
  }

  lemma SubmitKeeps(s: Store, m: nat, p: Proposal)
    requires Inv(s) && Submitting(s, m, p).Ok?
    ensures Inv(Apply(s, Submit(m, p))) && Later(s, Apply(s, Submit(m, p)))
  {
    WriteKeeps(s, m, Submitting(s, m, p).value, Running, []);
    assert s.approvals + [] == s.approvals;
  }

  lemma PassKeeps(s: Store, m: nat, changeRef: string)
    requires Inv(s) && Judging(s, m, changeRef, Passed).Ok?
    ensures Inv(Apply(s, RecordQa(m, changeRef, Passed))) && Later(s, Apply(s, RecordQa(m, changeRef, Passed)))
  {
    assert DeliverySound(s.approvals, m, s.deliveries[m], s.now);
    WriteKeeps(s, m, Judging(s, m, changeRef, Passed).value, AwaitingApproval, [QaRequest(s, m, changeRef)]);
  }

  lemma FailKeeps(s: Store, m: nat, changeRef: string)
    requires Inv(s) && Judging(s, m, changeRef, Failed).Ok?
    ensures Inv(Apply(s, RecordQa(m, changeRef, Failed))) && Later(s, Apply(s, RecordQa(m, changeRef, Failed)))
  {
  }

  /** A request that is denied or withdrawn has never carried a record. */
  lemma ApplyingKeeps(s: Store, m: nat, id: nat, changeRef: string)
    requires Inv(s)
    ensures Inv(Apply(s, ApplyDecision(m, id, changeRef))) && Later(s, Apply(s, ApplyDecision(m, id, changeRef)))
  {
    var r := Applying(s, m, id, changeRef);
    if r.Ok? && r.value.approval.None? {
      assert DeliverySound(s.approvals, m, s.deliveries[m], s.now);
      WriteKeeps(s, m, r.value, Running, []);
      assert s.approvals + [] == s.approvals;
    } else {
      LaterReflexive(s);
    }
  }

  lemma PublishKeeps(s: Store, m: nat, changeRef: string, p: Publication)
    requires Inv(s) && Publishing(s, m, changeRef, p).Ok?
    ensures Inv(Apply(s, Publish(m, changeRef, p))) && Later(s, Apply(s, Publish(m, changeRef, p)))
  {
    hide Publishing, Text.IsGitSha;
    PublicationExactly(s, m, changeRef, p);
    var d := s.deliveries[m];
    assert DeliverySound(s.approvals, m, d, s.now) && ApprovalSound(s.approvals[d.approval.value], s.now);
    SaveKeeps(s, m, Publishing(s, m, changeRef, p).value);
  }

  lemma DeployKeeps(s: Store, m: nat, changeRef: string, r: Deployment)
    requires Inv(s) && Deploying(s, m, changeRef, r).Ok?
    ensures Inv(Apply(s, Deploy(m, changeRef, r))) && Later(s, Apply(s, Deploy(m, changeRef, r)))
  {
    hide Deploying, ValidRelease;
    DeploymentExactly(s, m, changeRef, r);
    var d := s.deliveries[m];
    assert DeliverySound(s.approvals, m, d, s.now) && ApprovalSound(s.approvals[d.approval.value], s.now);
    SaveKeeps(s, m, Deploying(s, m, changeRef, r).value);
  }

  lemma RollBackKeeps(s: Store, m: nat, changeRef: string, release: string)
    requires Inv(s) && RollingBack(s, m, changeRef, release).Ok?
    ensures Inv(Apply(s, RollBack(m, changeRef, release))) && Later(s, Apply(s, RollBack(m, changeRef, release)))
  {
    hide RollingBack, ValidRelease;
    RollbackExactly(s, m, changeRef, release);
    var d := s.deliveries[m];
    assert DeliverySound(s.approvals, m, d, s.now) && ApprovalSound(s.approvals[d.approval.value], s.now);
    SaveKeeps(s, m, RollingBack(s, m, changeRef, release).value);
  }

  /** Clock, missions, requests and decisions. */
  lemma OutsideKeeps(s: Store, e: Event)
    requires Inv(s) && (e.Tick? || e.CreateMission? || e.SetStatus? || e.CreateRequest? || e.Decide?)
    ensures Inv(Apply(s, e)) && Later(s, Apply(s, e))
  {
    hide DeliverySound;
    var t := Apply(s, e);
    forall id | 0 <= id < |t.approvals|
      ensures ApprovalSound(t.approvals[id], t.now)
    {
      if id < |s.approvals| {
        assert ApprovalSound(s.approvals[id], s.now);
      }
    }
    TablesKeep(s, t);
  }

  lemma StepKeeps(s: Store, e: Event)
    requires Inv(s)
    ensures Inv(Apply(s, e)) && Later(s, Apply(s, e))
  {
    hide Inv, Later, Submitting, Judging, Applying, Publishing, Deploying, RollingBack;
    LaterReflexive(s);
    match e
    case Submit(m, p) => if Submitting(s, m, p).Ok? { SubmitKeeps(s, m, p); }
    case RecordQa(m, changeRef, result) => if Judging(s, m, changeRef, result).Ok? { if result == Passed { PassKeeps(s, m, changeRef); } else { FailKeeps(s, m, changeRef); } }
    case ApplyDecision(m, id, changeRef) => ApplyingKeeps(s, m, id, changeRef);
    case Publish(m, changeRef, p) => if Publishing(s, m, changeRef, p).Ok? { PublishKeeps(s, m, changeRef, p); }
    case Deploy(m, changeRef, r) => if Deploying(s, m, changeRef, r).Ok? { DeployKeeps(s, m, changeRef, r); }
    case RollBack(m, changeRef, release) =>
      if RollingBack(s, m, changeRef, release).Ok? { RollBackKeeps(s, m, changeRef, release); }
    case _ => OutsideKeeps(s, e);
  }

  lemma LaterReflexive(s: Store)
    ensures Later(s, s)
  {
  }

  lemma LaterTransitive(s: Store, t: Store, u: Store)
    requires Later(s, t) && Later(t, u)
    ensures Later(s, u)
  {
  }

  lemma RunKeeps(s: Store, es: seq<Event>)
    requires Inv(s)
    ensures Inv(Runs.Replay(Apply, s, es)) && Later(s, Runs.Replay(Apply, s, es))
  {
    hide Apply, Inv, Later;
    forall t, e | Inv(t)
      ensures Inv(Apply(t, e)) && Later(t, Apply(t, e))
    {
      StepKeeps(t, e);
    }
    forall t
      ensures Later(t, t)
    {
      LaterReflexive(t);
    }
    forall t, u, v | Later(t, u) && Later(u, v)
      ensures Later(t, v)
    {
      LaterTransitive(t, u, v);
    }
    Runs.Ordered(Apply, Inv, Later, s, es);
  }

  lemma InitHolds(now: int)
    ensures Inv(Init(now))
  {
  }

  // ---------- main results ----------

  // ---------- what QA reported ----------

  ghost function StateAt(now: int, es: seq<Event>, j: nat): Store
    requires j <= |es|
  {
    Runs.Replay(Apply, Init(now), es[..j])
  }

  /** The j-th event is QA's report that the proposal passed, made at the given time. */
  ghost predicate PassReported(now: int, es: seq<Event>, m: nat, changeRef: string, at: int, j: nat) {
    j < |es| && es[j] == RecordQa(m, changeRef, Passed) && StateAt(now, es, j).now == at
  }

  /** The j-th event is QA's report that the proposal failed, and it was accepted: the delivery was awaiting QA of it. */
  ghost predicate FailReported(now: int, es: seq<Event>, m: nat, j: nat) {
    && j < |es| && es[j].RecordQa? && es[j].mission == m && es[j].result == Failed
    && var s := StateAt(now, es, j);
       m < |s.missions| && m in s.deliveries && s.deliveries[m].stage == Qa && s.deliveries[m].proposal.changeRef == es[j].changeRef
  }

  /** A request appears on a delivery only by a report that its proposal passed, and stays the same until it is removed. */
  lemma ApprovalAppears(s: Store, e: Event, m: nat)
    requires Inv(s) && m in Apply(s, e).deliveries && Apply(s, e).deliveries[m].approval.Some?
    ensures var d := Apply(s, e).deliveries[m];
            || (m in s.deliveries && s.deliveries[m].approval == d.approval && s.deliveries[m].proposal == d.proposal)
            || (e == RecordQa(m, d.proposal.changeRef, Passed) && d.approval.value == |s.approvals|
                && d.approval.value < |Apply(s, e).approvals| && Apply(s, e).approvals[d.approval.value].createdAt == s.now)
  {
    hide Submitting, Judging, Applying, Publishing, Deploying, RollingBack;
    match e
    case RecordQa(n, changeRef, result) => JudgedRequests(s, n, changeRef, result);
    case Submit(n, p) => NewDeliveriesHaveNone(s, n, p);
    case ApplyDecision(n, id, changeRef) => DecidedRequests(s, n, id, changeRef);
    case Publish(n, changeRef, p) => RecordsKeepRequests(s, n, changeRef);
    case Deploy(n, changeRef, r) => RecordsKeepRequests(s, n, changeRef);
    case RollBack(n, changeRef, release) => RecordsKeepRequests(s, n, changeRef);
    case _ =>
  }

  lemma JudgedRequests(s: Store, n: nat, changeRef: string, result: QaResult)
    ensures Judging(s, n, changeRef, result).Ok? ==>
              var d := Judging(s, n, changeRef, result).value;
              && n in s.deliveries && d.proposal == s.deliveries[n].proposal && d.proposal.changeRef == changeRef
              && d.approval == if result == Passed then Some(|s.approvals|) else None
  {
  }

  lemma NewDeliveriesHaveNone(s: Store, n: nat, p: Proposal)
    ensures Submitting(s, n, p).Ok? ==> Submitting(s, n, p).value.approval.None?
  {
    hide Text.Strip;
  }

  lemma DecidedRequests(s: Store, n: nat, id: nat, changeRef: string)
    ensures Applying(s, n, id, changeRef).Ok? && Applying(s, n, id, changeRef).value.approval.Some? ==>
              n in s.deliveries && Applying(s, n, id, changeRef).value == s.deliveries[n]
  {
  }

  /** Recording changes neither the proposal nor its request. */
  predicate SameRequest(s: Store, n: nat, r: Result<Delivery>) {
    r.Ok? ==> n in s.deliveries && r.value.proposal == s.deliveries[n].proposal && r.value.approval == s.deliveries[n].approval
  }

  lemma RecordsKeepRequests(s: Store, n: nat, changeRef: string)
    ensures forall p :: SameRequest(s, n, Publishing(s, n, changeRef, p))
    ensures forall r :: SameRequest(s, n, Deploying(s, n, changeRef, r))
    ensures forall release :: SameRequest(s, n, RollingBack(s, n, changeRef, release))
  {
    hide ValidPublication, ValidDeployment, ValidRelease;
  }

  /** In every run, a delivery with a request had its proposal reported as passed at the moment the request was made. */
  lemma {:induction false} ApprovalMeansPassReported(now: int, es: seq<Event>, m: nat)
    requires var s := Runs.Replay(Apply, Init(now), es);
             m in s.deliveries && s.deliveries[m].approval.Some?
    ensures var s := Runs.Replay(Apply, Init(now), es);
            var d := s.deliveries[m];
            && d.approval.value < |s.approvals|
            && exists j: nat :: PassReported(now, es, m, d.proposal.changeRef, s.approvals[d.approval.value].createdAt, j)
    decreases |es|
  {
    hide Apply;
    InitHolds(now);
    RunKeeps(Init(now), es);
    var t := Runs.Replay(Apply, Init(now), es);
    var d := t.deliveries[m];
    assert DeliverySound(t.approvals, m, d, t.now);
    if es != [] {
      var front, e := es[..|es| - 1], es[|es| - 1];
      var s := Runs.Replay(Apply, Init(now), front);
      RunKeeps(Init(now), front);
      ApprovalAppears(s, e, m);
      if m in s.deliveries && s.deliveries[m].approval == d.approval && s.deliveries[m].proposal == d.proposal {
        ApprovalMeansPassReported(now, front, m);
        StepKeeps(s, e);
        assert ApprovalGrown(s.approvals[d.approval.value], t.approvals[d.approval.value]);
        var j: nat :| PassReported(now, front, m, d.proposal.changeRef, s.approvals[d.approval.value].createdAt, j);
        assert es[..j] == front[..j];
        assert PassReported(now, es, m, d.proposal.changeRef, t.approvals[d.approval.value].createdAt, j);
      } else {
        assert PassReported(now, es, m, d.proposal.changeRef, t.approvals[d.approval.value].createdAt, |es| - 1);
      }
    }
  }

  lemma FailSendsBack(s: Store, m: nat, changeRef: string)
    requires m < |s.missions| && m in s.deliveries && s.deliveries[m].stage == Qa && s.deliveries[m].proposal.changeRef == changeRef
    ensures var t := Apply(s, RecordQa(m, changeRef, Failed));
            && m in t.deliveries && t.deliveries[m].stage == Developer
            && t.deliveries[m].approval.None? && t.approvals == s.approvals
  {
  }

  /** Once QA has reported a failure, the delivery is with its developer for good: no request and no record, ever. */
  lemma FailureIsFinal(now: int, es: seq<Event>, m: nat, j: nat)
    requires FailReported(now, es, m, j)
    ensures var s := Runs.Replay(Apply, Init(now), es);
            m in s.deliveries && s.deliveries[m].stage == Developer && s.deliveries[m].approval.None? && Untouched(s.deliveries[m])
  {
    hide Apply;
    var s, e, more := StateAt(now, es, j), es[j], es[j + 1..];
    InitHolds(now);
    RunKeeps(Init(now), es[..j]);
    FailSendsBack(s, m, e.changeRef);
    StepKeeps(s, e);
    Runs.Extend(Apply, Init(now), es[..j], e);
    assert es[..j] + [e] == es[..j + 1] && es == es[..j + 1] + more;
    Runs.Split(Apply, Init(now), es[..j + 1], more);
    var t := Apply(s, e);
    RunKeeps(t, more);
    assert DeliveryGrown(t.deliveries[m], Runs.Replay(Apply, t, more).deliveries[m]);
    assert DeliverySound(t.approvals, m, t.deliveries[m], t.now);
  }

  /**
   In every run, a rolled-back delivery has come the whole way inside one approval window: QA reported that its proposal
   passed, and never that it failed; that report opened the request at `a.createdAt`, a human approved it, then
   publication, deployment and rollback follow in this order, all within 24 hours of the report, and the release
   restored is the prior release of the deployment.
   */
  lemma RollbackEndsTheWholeChain(now: int, es: seq<Event>, m: nat)
    requires var s := Runs.Replay(Apply, Init(now), es);
             m in s.deliveries && s.deliveries[m].rolledBack.Some?
    ensures var s := Runs.Replay(Apply, Init(now), es);
            var d := s.deliveries[m];
            && d.qa == Some(Passed) && d.published.Some? && d.deployed.Some?
            && d.approval.Some? && d.approval.value < |s.approvals|
            && var a := s.approvals[d.approval.value];
               && (exists j: nat :: PassReported(now, es, m, d.proposal.changeRef, a.createdAt, j))
               && (forall j: nat :: !FailReported(now, es, m, j))
               && a.state == Approved && RequestedFor(a, m, d)
               && a.decidedAt.Some? && a.createdAt <= a.decidedAt.value <= d.published.value.at
               && d.published.value.at <= d.deployed.value.at <= d.rolledBack.value.at < a.createdAt + DAY
               && d.deployed.value.identity.prior == Some(d.rolledBack.value.identity)
  {
    hide Apply;
    InitHolds(now);
    RunKeeps(Init(now), es);
    var s := Runs.Replay(Apply, Init(now), es);
    assert DeliverySound(s.approvals, m, s.deliveries[m], s.now);
    assert ApprovalSound(s.approvals[s.deliveries[m].approval.value], s.now);
    RecordsRestOnApproval(now, es, m);
  }

  /**
   In every run, a request or a record at any stage rests on QA's report that this proposal passed, each record on the
   stage before it and on the approved request; a delivery that was reported as failed has neither.
   */
  lemma RecordsRestOnApproval(now: int, es: seq<Event>, m: nat)
    requires m in Runs.Replay(Apply, Init(now), es).deliveries
    ensures var s := Runs.Replay(Apply, Init(now), es);
            var d := s.deliveries[m];
            && (d.rolledBack.Some? ==> d.deployed.Some?) && (d.deployed.Some? ==> d.published.Some?)
            && (d.published.Some? ==>
                  && d.stage == WaitingApproval && d.qa == Some(Passed)
                  && d.approval.Some? && d.approval.value < |s.approvals| && s.approvals[d.approval.value].state == Approved
                  && s.approvals[d.approval.value].mission == m)
            && (d.approval.Some? || d.published.Some? || d.deployed.Some? || d.rolledBack.Some? ==>
                  && d.approval.Some? && d.approval.value < |s.approvals|
                  && (exists j: nat :: PassReported(now, es, m, d.proposal.changeRef, s.approvals[d.approval.value].createdAt, j))
                  && (forall j: nat :: !FailReported(now, es, m, j)))
            && (d.stage == Developer ==> Untouched(d))
  {
    hide Apply;
    InitHolds(now);
    RunKeeps(Init(now), es);
    var s := Runs.Replay(Apply, Init(now), es);
    var d := s.deliveries[m];
    assert DeliverySound(s.approvals, m, d, s.now);
    if d.approval.Some? {
      ApprovalMeansPassReported(now, es, m);
      forall j: nat | FailReported(now, es, m, j)
        ensures false
      {
        FailureIsFinal(now, es, m, j);
      }
    }
  }

  /** Across any further run: proposal and recorded identities with their times never change, and decisions stand. */
  lemma IdentitiesAreWrittenOnce(now: int, es: seq<Event>, more: seq<Event>, m: nat)
    requires m in Runs.Replay(Apply, Init(now), es).deliveries
    ensures var s, t := Runs.Replay(Apply, Init(now), es), Runs.Replay(Apply, Init(now), es + more);
            && m in t.deliveries && DeliveryGrown(s.deliveries[m], t.deliveries[m])
            && |s.approvals| <= |t.approvals|
            && (forall id :: 0 <= id < |s.approvals| && s.approvals[id].state != Pending ==> t.approvals[id] == s.approvals[id])
  {
    hide Apply;
    InitHolds(now);
    RunKeeps(Init(now), es);
    Runs.Split(Apply, Init(now), es, more);
    RunKeeps(Runs.Replay(Apply, Init(now), es), more);
    var s, t := Runs.Replay(Apply, Init(now), es), Runs.Replay(Apply, Init(now), es + more);
    forall id | 0 <= id < |s.approvals| && s.approvals[id].state != Pending
      ensures t.approvals[id] == s.approvals[id]
    {
      assert ApprovalGrown(s.approvals[id], t.approvals[id]);
    }
  }

  /** One approval serves one delivery. */
  lemma ApprovalsAreNotShared(now: int, es: seq<Event>, m: nat, n: nat)
    requires var s := Runs.Replay(Apply, Init(now), es);
             m in s.deliveries && n in s.deliveries && s.deliveries[m].approval.Some?
             && s.deliveries[m].approval == s.deliveries[n].approval
    ensures m == n
  {
    hide Apply;
    InitHolds(now);
    RunKeeps(Init(now), es);
    var s := Runs.Replay(Apply, Init(now), es);
    assert DeliverySound(s.approvals, m, s.deliveries[m], s.now) && DeliverySound(s.approvals, n, s.deliveries[n], s.now);
  }
}
