# AI HQ: a Dafny model of its guarded execution protocols

AI HQ advances persisted missions, approvals, deliveries and recovery incidents by workers. Several separate database
transactions must together keep guarantees that none of them keeps alone. This project models those protocols and
proves the guarantees over every run; `dafny verify dfyconfig.toml` checks all of it.

The parts, each a few files:

- **Recovery** (`RecoveryPolicy`, `RecoveryStore`, `RecoveryService`, `RecoveryLoop`, `RecoveryCycle`): incidents, the
  sliding-window attempt budget and the loop that creates recovery missions and records their outcomes.
- **Authority** (`SafetyPolicy`, `Authority`, `Gateway`): approvals, scoped rules, the safety decision and gateway calls.
- **Missions** (`PlanSteps`, `Missions`, `MissionExecutor`): plans advanced one step at a time, as a refinement of an
  in-order fold over the replies their requests receive.
- **Leases** (`Leases`, `LeaseQueue`): the lease protocol of the code-change queue and its workers.
- **Delivery** (`Delivery`, `DeliveryService`, `Releases`): the write-once chain from proposal to rollback inside one
  approval window, and the foreign calls made along it.
- **Candidates** (`CanonicalJson`, `Ordering`, `Manifests`, `Sandbox`, `SandboxService`, `Candidate`, `AgentRunner`,
  `Publisher`): workspace changes, review diff, candidate identity, its reopening, and the published tree.
- **Bounded algorithms** (`Context`, `Utf8`): greedy packing of source context and truncation of output.

How the model is built. Each protocol is a function `Apply(state, event)` where an event is one transaction of the source
(one `with session_factory() as db` block; a conditional UPDATE is a compare-and-set), and a run is the replay of any
event sequence (`Runs`). Each operation reads the clock once; clocks never go back and count microseconds. The services are
classes over the same tables whose methods are proved to be runs of the protocol. A class method is one uninterrupted
call; interleaving is the business of the protocols.

SHA-256 is an arbitrary function. Fingerprints of actions are represented by the canonical text they digest. Where
digests of files or candidates must identify what they digest, the result exhibits a collision as the only other
possibility. Queries without an order take rows in insertion order. Foreign calls (adapters, model runs, tests, publisher,
deployer, rollbacker, the Git remote) are parameters that may take time and fail.

Where the code does less than its documentation or a first reading suggests:

- The budget bound needs outcomes to be recorded while their incident is active (`RecoveryLoop.LateRecordExceedsBudget`);
  `RecoveryLoop.BudgetHoldsExactlyWhenSpared` gives the exact condition. `record_attempt` itself does not look at the
  active key (`src/ai_hq/recovery/service.py:397-438`).
- The verifier digests the identity with `ensure_ascii=False`, the store with the default. DEL (0x7F) is ASCII and is
  escaped only by the latter, so the round trip needs characters below DEL, not just ASCII.
- The review diff does not show a change of line endings, nor the creation or deletion of an empty file, and it does show
  changes inside a `.git` directory, which the manifest does not track (`Sandbox.DiffShowsChangedFiles`).
- A worker id with spaces around it, or a mission without a trusted repository, leaves its lease behind
  (`LeaseQueue.CodeChangeQueueRunner.RunOnce`).
- A RUNNING mission whose lease was released is not claimed again unless it is requeued (`Leases.ClaimsExactly`).
- A persistent failure whose active incident has neither a mission nor a state that still waits for one makes the
  recovery cycle raise (`RecoveryCycle.DripVidRecoveryCycle.Treat`).
- A claim of a mission that was put back in the queue ignores the lease on it (`Leases.RequeueBreaksExclusion`).
- `run_next` sends a step of a PAUSED mission too; a reply that would complete it, or make it wait, raises after the step
  has been written (`MissionExecutor.Executor.Settle`).

## Model

| member | source | states |
|---|---|---|
| RecoveryPolicy.DecideRecovery | src/ai_hq/recovery/policy.py:56-174 | recover, escalate, observe and healthy each exactly when due: recovery exactly for the persistent failure of a listed component that is down while storage works; the reason names the rule that applied |
| RecoveryStore.ActiveIncident | src/ai_hq/recovery/service.py:122-132 | the incident found holds the component's active key; none is found exactly when no incident holds it |
| RecoveryStore.IncidentForMission | src/ai_hq/recovery/service.py:134-148 | the incident found is active and carries the mission; none is found exactly when no active incident carries it |
| RecoveryStore.CanRecoverMeans | src/ai_hq/recovery/service.py:289-326 | budget_exhausted exactly for an active pending incident with as many real attempts in the window as the budget, cooldown exactly for one below the budget with a real attempt inside the cooldown, allowed exactly for any other active pending incident, state_not_pending for the rest |
| RecoveryStore.StepKeeps | src/ai_hq/recovery/service.py:174-537 | every service call keeps: the active key is set exactly in non-terminal states, at most one active incident per component, failures spaced by the observation interval; and never reopens an incident or changes its mission |
| RecoveryStore.RunKeeps | src/ai_hq/recovery/service.py:174-537 | the same over every sequence of calls: a closed incident never regains its key and `recovery_mission_id` is write-once |
| RecoveryLoop.BudgetHoldsInEveryWindow | src/ai_hq/recovery/service.py:289-326 | in every interleaved run whose outcomes are recorded while their incident is active, every closed window of the configured length holds at most the budget of real attempts on a component, although check and record are far apart in time |
| RecoveryLoop.RecordingAtOnceIsPrompt | src/ai_hq/recovery/bootstrap.py:313-329 | a worker that records right after finding the active incident, as the single worker loop does, satisfies that condition |
| RecoveryLoop.LateRecordExceedsBudget | src/ai_hq/recovery/service.py:397-438 | without it the bound fails: a concrete two-worker run in which an attempt is recorded against an incident closed after it was found |
| RecoveryLoop.CallKeepsBudgetExactly | src/ai_hq/recovery/service.py:397-438 | one call keeps every window within budget if and only if a real attempt is recorded while the last window has room for it |
| RecoveryLoop.ChosenMeans | src/ai_hq/recovery/observer.py:194-217 | a mission is due exactly for a listed component that is down, not ready and past the threshold, while storage works, without a mission yet and outside observe-only |
| RecoveryLoop.BudgetHoldsExactlyWhenSpared | src/ai_hq/recovery/service.py:289-438 | for any sequence of service calls: no window ever exceeds the budget if and only if every real attempt was recorded while the last window had room |
| RecoveryLoop.MissionsAreNotPremature | src/ai_hq/recovery/observer.py:194-270 | in every run, a recovery mission is created no sooner than (threshold - 1) observation intervals after its incident's first failure |
| RecoveryLoop.PromptRuns | src/ai_hq/recovery/bootstrap.py:313-329 | on runs whose records are prompt, the guarded protocol and the source's protocol are the same |
| RecoveryLoop.ConfigStays | src/ai_hq/recovery/service.py:71-99 | configuration and threshold never change in a run |
| RecoveryService.RecoveryService.constructor | src/ai_hq/recovery/service.py:71-99 | the service starts with no incident and an accepted configuration |
| RecoveryService.RecoveryService.Sound | src/ai_hq/recovery/service.py:70-537 | the invariant of all runs holds of the object's tables at every moment |
| RecoveryService.RecoveryService.ActiveIncident | src/ai_hq/recovery/service.py:122-132 | returns the component's active incident; unknown components are refused |
| RecoveryService.RecoveryService.GetIncident | src/ai_hq/recovery/service.py:110-120 | returns the incident or KeyError |
| RecoveryService.RecoveryService.ObserveFailure | src/ai_hq/recovery/service.py:174-230 | opens an incident, or counts a failure only after the observation interval; one call is one transaction of the protocol |
| RecoveryService.RecoveryService.ResolveIfHealthy | src/ai_hq/recovery/service.py:232-261 | closes the active incident of a component, if any |
| RecoveryService.RecoveryService.UpdateDiagnostics | src/ai_hq/recovery/service.py:150-172 | accepted exactly for an active incident |
| RecoveryService.RecoveryService.MarkRecoveryPending | src/ai_hq/recovery/service.py:263-287 | accepted exactly for an active incident in a pendable state |
| RecoveryService.RecoveryService.CanRecover | src/ai_hq/recovery/service.py:289-326 | each of the four answers exactly when it is due, in terms of the incident and the attempts counted over the window and the cooldown |
| RecoveryService.RecoveryService.AttachMission | src/ai_hq/recovery/service.py:328-368 | attaches a mission exactly once, to a pending active incident |
| RecoveryService.RecoveryService.ClaimRecovery | src/ai_hq/recovery/service.py:370-395 | succeeds exactly for an active pending incident |
| RecoveryService.RecoveryService.RecordAttempt | src/ai_hq/recovery/service.py:397-438 | appends exactly one attempt with the present time; a real one stamps the incident |
| RecoveryService.RecoveryService.MarkVerifying | src/ai_hq/recovery/service.py:440-450 | moves an active incident to verification |
| RecoveryService.RecoveryService.Resolve | src/ai_hq/recovery/service.py:452-477 | closes the incident, active or not |
| RecoveryService.RecoveryService.Escalate | src/ai_hq/recovery/service.py:479-509 | closes the incident with a bounded reason, active or not |
| RecoveryService.RecoveryService.FindForMission | src/ai_hq/recovery/service.py:134-148 | the active incident that carries the mission |
| RecoveryCycle.RecoveryObserver.CreateRecoveryMission | src/ai_hq/recovery/observer.py:194-270 | the whole sequence of mark, check, create and attach: a mission is created exactly when allowed and is attached to the incident; an incident out of budget is escalated as budget_exhausted, one that is cooling down stays open; observe-only creates nothing |
| RecoveryCycle.RecoveryObserver.HandlePolicyEscalation | src/ai_hq/recovery/observer.py:272-310 | escalates exactly when the policy says so |
| RecoveryCycle.RecoveryObserver.HandleExecutionResult | src/ai_hq/recovery/bootstrap.py:313-329 | an attempt is recorded exactly for a simulated, executed or failed step of a mission whose incident is active, on that incident, real unless simulated; the incident then verifies or escalates |
| RecoveryCycle.RecoveryObserver.Record | src/ai_hq/recovery/observer.py:312-378 | blocked and waiting outcomes escalate without an attempt; the others record one |
| RecoveryCycle.RecoveryObserver.Find | src/ai_hq/recovery/bootstrap.py:318-320 | the lookup that precedes every record |
| RecoveryCycle.RecoveryObserver.VerifyRecovery | src/ai_hq/recovery/observer.py:380-416 | resolves exactly when verification is healthy, else escalates |
| RecoveryCycle.RecoveryObserver.ObserveFailure | src/ai_hq/recovery/bootstrap.py:196-311 | after an observed failure the component has an active incident |
| RecoveryCycle.RecoveryObserver.ResolveIfHealthy | src/ai_hq/recovery/bootstrap.py:196-311 | after a healthy observation the component has no active incident |
| RecoveryCycle.RecoveryObserver.CaptureDiagnostics | src/ai_hq/recovery/observer.py:179-192 | accepted exactly for an active incident |
| RecoveryCycle.RecoveryObserver.Check | src/ai_hq/recovery/observer.py:218-230 | the allowance at this moment; with notifications an incident out of budget ends ESCALATED with that reason, every other refusal leaves it open |
| RecoveryCycle.RecoveryObserver.Attach | src/ai_hq/recovery/observer.py:269-270 | the created mission is attached to its incident |
| RecoveryCycle.DripVidRecoveryCycle.HandleFailure | src/ai_hq/recovery/bootstrap.py:269-301 | exactly one failure is counted, in the active incident or a new one; below the threshold nothing else happens, and an escalation the policy asks for is carried out without a mission |
| RecoveryCycle.DripVidRecoveryCycle.Respond | src/ai_hq/recovery/bootstrap.py:278-301 | only the failing incident is touched and its count kept; escalation takes precedence over a mission |
| RecoveryCycle.DripVidRecoveryCycle.Treat | src/ai_hq/recovery/bootstrap.py:227-301 | one component is treated as its branch demands; it fails exactly when a persistent failure needs a mission its incident can no longer get |
| RecoveryCycle.DripVidRecoveryCycle.ObserveAll | src/ai_hq/recovery/bootstrap.py:227-310 | after the loop every component is as its own state at the start of the cycle demands, whatever happened to the others, and the summary says so |
| RecoveryCycle.DripVidRecoveryCycle.StorageFailure | src/ai_hq/recovery/bootstrap.py:206-225 | one failure of the app is counted, its incident is escalated from the threshold on, and no mission is made |
| RecoveryCycle.DripVidRecoveryCycle.RunOnce | src/ai_hq/recovery/bootstrap.py:196-311 | one cycle: every component ends as its incident and observation demand, no attempt is recorded, observe-only creates no mission, the observer mode is restored, and the budget still holds |
| RecoveryCycle.BranchMeans | src/ai_hq/recovery/bootstrap.py:131-161 | which branch a component takes and how a verifying incident is closed, in terms of the observed states alone |
| RecoveryCycle.SummaryMeans | src/ai_hq/recovery/bootstrap.py:172-194 | the summary says detected, resolved and worked exactly when some component failed, recovered or was worked on |
| RecoveryCycle.CycleAdvances | src/ai_hq/recovery/bootstrap.py:227-301 | treating one component completes it and leaves those before and after it as they were |
| RecoveryCycle.TreatedStays | src/ai_hq/recovery/bootstrap.py:227-301 | other components do not disturb an outcome that has been reached |
| CanonicalJson.TextIsInjective | src/ai_hq/approvals/service.py:12-18 | canonical text determines the value it was written from, escapes and surrogate pairs included |
| CanonicalJson.NumberDenotes | src/ai_hq/approvals/service.py:12-18 | a number is written by digits that denote it, without leading zeros, after a sign exactly when negative |
| CanonicalJson.ModesAgree | src/ai_hq/delivery/candidate_verifier.py:57-62 | `ensure_ascii` True and False give the same text exactly when no character is DEL or above |
| CanonicalJson.CrossModeText | src/ai_hq/code_changes/candidate_store.py:237-244 | a text of one mode met in the other comes from the same value, and that value is plain |
| CanonicalJson.DumpModes | src/ai_hq/code_changes/candidate_store.py:237-244 | the ASCII text is always plain; the other one exactly for plain values |
| SafetyPolicy.EvaluateAction | src/ai_hq/safety/policy.py:26-53 | blocked exactly when unauthorised, frozen, RED, or mutating in SAFE mode; approval is required exactly for BLUE without rule or approval, AMBER without approval and GREEN mutations without approval; a mutating action is allowed exactly in NORMAL mode without simulation and with its authority |
| SafetyPolicy.FingerprintIdentifies | src/ai_hq/approvals/service.py:12-18 | equal fingerprints mean the same action, target and plan |
| SafetyPolicy.RequestFingerprintIdentifies | src/ai_hq/tool_gateway/service.py:52-56 | two requests have the same fingerprint exactly when capability, target and params agree |
| SafetyPolicy.PlanNamesRequest | src/ai_hq/tool_gateway/service.py:52-56 | the plan asked to be approved holds the capability, the target and the params of the request |
| Authority.EveryMutationIsAuthorised | src/ai_hq/tool_gateway/service.py:36-121 | in every interleaving of gateway calls, decisions, rules and mode changes, each mutating adapter call was evaluated in NORMAL mode without simulation, with permission, and follows an unexpired human approval asked for by its mission with the same capability, target and params or, for BLUE, the consumption of a rule for its action, target, risk and conditions |
| Authority.RulesAreNeverOverspent | src/ai_hq/approvals/service.py:138-199 | for any number of workers: mutations charged to a rule <= its counter = its successful consumptions <= its limit |
| Authority.RunKeeps | src/ai_hq/tool_gateway/service.py:36-121 | in every run decisions are made once, rule terms never change and counters only grow |
| Authority.InvokedIsAuthorised | src/ai_hq/safety/service.py:78-109 | the authorisation of one adapter call read off the tables: who approved which capability, target and params, or which rule was charged |
| Authority.FindApproved | src/ai_hq/approvals/service.py:102-112 | finds an approved, unexpired request of the mission and fingerprint exactly when there is one |
| Authority.FindPending | src/ai_hq/approvals/service.py:71-84 | finds a pending, unexpired request of the mission and fingerprint exactly when there is one |
| Authority.FindRule | src/ai_hq/approvals/service.py:138-164 | finds a usable rule matching action, target, risk and conditions exactly when there is one; never for RED |
| Authority.ChargesAfter | src/ai_hq/approvals/service.py:166-199 | how the number of consumptions of a rule changes when one call changes |
| Authority.MutationsWithinCharges | src/ai_hq/tool_gateway/service.py:85-97 | mutations charged to a rule never outnumber its consumptions |
| Gateway.ApprovalService.CreateRequest | src/ai_hq/approvals/service.py:29-54 | adds one pending request with the fingerprint of its plan |
| Gateway.ApprovalService.PendingForFingerprint | src/ai_hq/approvals/service.py:71-84 | the query of the specification, by a loop over the rows |
| Gateway.ApprovalService.Decide | src/ai_hq/approvals/service.py:86-100 | decides exactly a pending request, once, never back to pending |
| Gateway.ApprovalService.IsApproved | src/ai_hq/approvals/service.py:102-112 | the query of the specification, by a loop over the rows |
| Gateway.ApprovalService.MatchingScopedRule | src/ai_hq/approvals/service.py:138-164 | the query of the specification, by a loop over the rows |
| Gateway.ApprovalService.ConsumeRule | src/ai_hq/approvals/service.py:166-199 | the counter moves by one exactly when the rule is unexpired, not RED and below its limit |
| Gateway.SafetyService.Evaluate | src/ai_hq/safety/service.py:48-163 | the decision follows from mode, approvals and rules; a required approval reuses the pending request or creates one asked for by this mission with this capability, target and params |
| Gateway.ToolGateway.constructor | src/ai_hq/tool_gateway/service.py:22-35 | a gateway over empty approval tables is the start of every run |
| Gateway.ToolGateway.Execute | src/ai_hq/tool_gateway/service.py:36-121 | one uninterrupted call is a run of the protocol: the reply is the one the tables dictate, a mutating call that reaches the adapter is entitled to it by an approval of the same capability, target and params or by a rule, and a matching rule is charged exactly for a mutating adapter call |
| Gateway.ToolGateway.Resolve | src/ai_hq/tool_gateway/service.py:36-50 | a call without adapter is refused at once, any other call is evaluated and carried out |
| Gateway.ReplyExactly | src/ai_hq/tool_gateway/service.py:36-121 | the exact condition for each of the five replies in terms of the request, its permission, the safety state, the unexpired approvals of the same capability, target and params, and the usable rules |
| Gateway.ToolGateway.HasExactPermission | src/ai_hq/tool_gateway/service.py:123-126 | whether the agent holds the capability |
| Gateway.ToolGateway.Evaluate | src/ai_hq/tool_gateway/service.py:36-84 | the evaluation of a call that resolves to an adapter |
| Gateway.ToolGateway.CarryOut | src/ai_hq/tool_gateway/service.py:85-121 | consume before the adapter, then one adapter call |
| Gateway.ToolGateway.HumanDecision | src/ai_hq/approvals/service.py:86-100 | a decision is one transaction of the protocol |
| Gateway.ToolGateway.CreateScopedRule | src/ai_hq/approvals/service.py:114-136 | a new rule starts unspent |
| Gateway.ToolGateway.ChangeSystem | src/ai_hq/safety/service.py:37-46 | a mode change is one transaction of the protocol |
| Gateway.ToolGateway.Sound | src/ai_hq/tool_gateway/service.py:36-121 | the invariants of all runs hold of the object's tables at every moment |
| Gateway.ReadsSnapshot | src/ai_hq/safety/service.py:48-109 | the separate reads of a call, made in a row, see one snapshot |
| Gateway.ApprovedNeverWaits | src/ai_hq/safety/service.py:78-108 | with an unexpired approval of its plan a request is never sent to wait |
| Gateway.ApprovalIsEnough | src/ai_hq/safety/service.py:78-108 | if only the approval was missing, the approved request is allowed or simulated |
| Gateway.InvokedIsEntitled | src/ai_hq/tool_gateway/service.py:36-121 | a mutating call that reaches the adapter had permission, NORMAL mode, no simulation, and an approval with its own fields or a usable rule that is not for RED |
| Gateway.ApprovedIsCarriedOut | src/ai_hq/safety/service.py:78-108 | a request with the capability, target and params of an approved, unexpired one of the same mission is carried out whenever mode, permission and registration allow it |
| PlanSteps.FirstIncomplete | src/ai_hq/missions/service.py:211-224 | everything before it has succeeded and it has not |
| PlanSteps.FirstWaiting | src/ai_hq/missions/service.py:295-309 | the first step that waits, if any |
| PlanSteps.EveryInterleavingIsOrdered | src/ai_hq/missions/service.py:197-279 | for any number of workers with the claim split into read and compare-and-set: the plan keeps its shape, the successful claims are steps 0, 1, 2, ... once each, and no two workers execute at once |
| PlanSteps.StepsNeverGoBack | src/ai_hq/missions/service.py:57-72 | across any further run a step leaves PENDING at most once and its terminal statuses are final |
| PlanSteps.ClaimExactly | src/ai_hq/missions/service.py:197-240 | in every run a claim succeeds exactly if the step read before is still pending |
| PlanSteps.ResumeExactly | src/ai_hq/missions/executor.py:153-185 | in every run a waiting step is resumed exactly if it still waits |
| PlanSteps.FinishExactly | src/ai_hq/missions/executor.py:86-143 | in every run an executing worker can write its outcome, after which no step is RUNNING |
| PlanSteps.RunKeeps | src/ai_hq/missions/service.py:197-279 | the shape and the claim order are kept by every run |
| Missions.MissionService.CreateMission | src/ai_hq/missions/service.py:80-123 | adds one queued mission |
| Missions.MissionService.CreatePlan | src/ai_hq/missions/service.py:125-179 | accepted exactly once, not empty, with registered tools only |
| Missions.MissionService.ClaimNextPendingStep | src/ai_hq/missions/service.py:197-240 | claims the first incomplete step exactly if it is pending |
| Missions.MissionService.TransitionStep | src/ai_hq/missions/service.py:243-279 | moves a step exactly along the table; nothing else changes |
| Missions.MissionService.WaitingApprovalStep | src/ai_hq/missions/service.py:295-309 | the first waiting step |
| Missions.MissionService.PlanIsComplete | src/ai_hq/missions/service.py:311-316 | a non-empty plan whose steps have all succeeded |
| Missions.MissionService.Transition | src/ai_hq/missions/service.py:554-588 | moves a mission exactly along the table |
| Missions.TransitionColumns | src/ai_hq/missions/service.py:25-55 | the transition table by target: which statuses lead to each, COMPLETED and CANCELLED lead nowhere |
| Missions.FoldExtends | src/ai_hq/missions/executor.py:86-143 | one more reply for the first incomplete step is one step of the in-order fold |
| Missions.CompletedExactlyWhenAllSucceed | src/ai_hq/missions/executor.py:108-117 | a mission on its fold is COMPLETED exactly when all n steps succeeded |
| Missions.RequestsAreInOrder | src/ai_hq/missions/executor.py:67-143 | requests go out in position order; a position is repeated only right after it was sent to wait |
| Missions.RequestCarriesTask | src/ai_hq/missions/executor.py:239-254 | the request of a step holds the tool, target, params, conditions and mutation flag of its task and the agent and risk of its mission |
| Missions.FirstIncompleteOfFold | src/ai_hq/missions/service.py:211-224 | the first incomplete step of a mission on its fold follows its successes |
| MissionExecutor.Executor.RunNext | src/ai_hq/missions/executor.py:44-151 | every branch of the call; a mission on its fold makes exactly one gateway call, for the next request of the plan, stays on its fold with no step left RUNNING and less to do, and fails only if that request cannot be built |
| MissionExecutor.Executor.MutatingStepIsAuthorised | src/ai_hq/missions/executor.py:83-143 | a step that mutates and was executed was evaluated in NORMAL mode and approved by a human for its own tool, target and params, or charged to a rule |
| MissionExecutor.Executor.ResumeApproved | src/ai_hq/missions/executor.py:153-231 | every branch of the call; a mission on its fold presents exactly the request it waited with, and with an unexpired approval of it does not return to waiting |
| MissionExecutor.Executor.Settle | src/ai_hq/missions/executor.py:86-143 | the step and then the mission take the statuses the reply asks for; a refused mission transition raises after the step was written |
| MissionExecutor.Executor.Send | src/ai_hq/missions/executor.py:83-143 | one gateway call with the step's request, settled; conditions that are not an object raise and leave the step RUNNING |
| MissionExecutor.Executor.Claim | src/ai_hq/missions/executor.py:67-81 | claims the next step and starts a queued mission |
| MissionExecutor.Executor.Finish | src/ai_hq/missions/executor.py:69-81 | without a claimable step a complete plan completes the mission |
| MissionExecutor.Progress | src/ai_hq/missions/executor.py:83-143 | one call keeps a mission on its fold and brings a runnable one nearer its end |
| MissionExecutor.CallCarriesTask | src/ai_hq/missions/executor.py:239-254 | every call a tracked mission has made carries the tool, target, params, conditions and mutation flag of its step |
| MissionExecutor.NextStepMeans | src/ai_hq/missions/executor.py:67-143 | which step is next, in terms of the step statuses alone |
| MissionExecutor.AdvancedMeans | src/ai_hq/missions/executor.py:86-143 | what each reply makes of the step and of the mission, status by status |
| MissionExecutor.NewPlanIsOnTrack | src/ai_hq/missions/service.py:125-179 | a mission with a new plan is on its fold |
| MissionExecutor.StaysOnTrack | src/ai_hq/missions/executor.py:83-84 | calls for other missions do not disturb it |
| MissionExecutor.HeldOnTrack | src/ai_hq/missions/executor.py:57-65 | a waiting mission is held at the step after its successes, for the request of its last call |
| MissionExecutor.NeverWaitsAgain | src/ai_hq/missions/executor.py:174-185 | an approved request is not answered with waiting |
| MissionExecutor.ApprovalCarriesThrough | src/ai_hq/missions/executor.py:174-185 | with mode and permission unchanged the approved request is simulated or its adapter is invoked |
| MissionExecutor.ApproveAndResume | src/ai_hq/missions/executor.py:153-231 | a sequential run with the approval in between: two calls with the same request, the second simulated or carried out |
| MissionExecutor.AutonomousMissionRunner.RunOnce | src/ai_hq/missions/worker.py:44-59 | advances the oldest queued or running mission that has a plan, and no other |
| Leases.HeldExcludesClaims | src/ai_hq/missions/service.py:338-439 | in every run with any workers and stale clock readings: while the latest lease is unexpired and unreleased a claim succeeds exactly when the mission was put back in the queue, hence never without a requeue |
| Leases.ClaimsExactly | src/ai_hq/missions/service.py:338-439 | in every run, a code-change mission can be claimed exactly when it is queued, or RUNNING with a latest lease that ran out and was not released; the claimer holds it for the seconds asked for |
| Leases.RenewsExactly | src/ai_hq/missions/service.py:441-489 | in every run, a lease is renewed exactly by the worker of the latest claim, unreleased and not after it ran out |
| Leases.GrantsNeverOverlap | src/ai_hq/missions/service.py:338-516 | without requeue the intervals granted by successive claims never overlap, for any renewals |
| Leases.AttemptsAreBoundedByTime | src/ai_hq/missions/service.py:399-419 | `attempt_count` is the number of successful claims, and without requeue (attempts - 1) minutes have passed since the first |
| Leases.RequeueBreaksExclusion | src/ai_hq/missions/service.py:355-372 | a concrete run in which a requeue lets two workers hold a mission at once |
| Leases.RequeuedMeans | src/ai_hq/missions/service.py:554-588 | a mission counts as requeued exactly if some event of the run put it back in the queue |
| Leases.RunKeeps | src/ai_hq/missions/service.py:338-516 | every run keeps the row equal to its last tenure and tenures at least a minute long |
| LeaseQueue.MissionQueue.ClaimOldestCodeChange | src/ai_hq/missions/service.py:338-439 | claims exactly the oldest available mission; refuses blank workers and leases under a minute |
| LeaseQueue.MissionQueue.Candidates | src/ai_hq/missions/service.py:373-394 | the available missions, oldest first, at most eight |
| LeaseQueue.MissionQueue.TryClaim | src/ai_hq/missions/service.py:396-423 | the conditional UPDATE: claimed exactly if still available |
| LeaseQueue.MissionQueue.RenewCodeChangeLease | src/ai_hq/missions/service.py:441-489 | renewed exactly by its owner before expiry |
| LeaseQueue.MissionQueue.ReleaseCodeChangeLease | src/ai_hq/missions/service.py:491-516 | released exactly by its owner, expired or not |
| LeaseQueue.MissionQueue.Sound | src/ai_hq/missions/service.py:338-516 | the invariant of all runs holds of the rows at every moment |
| LeaseQueue.CodeChangeService.RenewWorkerLease | src/ai_hq/code_changes/service.py:769-791 | a worker goes on exactly if it can renew the lease; only the expiry changes |
| LeaseQueue.CodeChangeService.Perform | src/ai_hq/code_changes/service.py:717-760 | due work runs exactly under a lease that could be renewed, takes its time and leaves its status; it returns exactly when it completes |
| LeaseQueue.CodeChangeService.Prepare | src/ai_hq/code_changes/service.py:230-283 | succeeds exactly when all work that was due ran under the lease and returned and the mission can take its final status, in terms of row, lease, clock and both runs; the clock moves by what was due |
| LeaseQueue.CodeChangeService.Enter | src/ai_hq/code_changes/service.py:184-228 | the entry checks, decided exactly; entering starts the mission or renews its lease |
| LeaseQueue.CodeChangeService.ProcessQueuedCandidate | src/ai_hq/code_changes/service.py:153-339 | past the entry checks it succeeds exactly when everything due returned and the mission took its final status; however it ends no lease is kept, and a mission left RUNNING by a failure is ended as FAILED; the whole row and the clock are given |
| LeaseQueue.CodeChangeQueueRunner.RunOnce | src/ai_hq/code_changes/worker.py:41-71 | one pass leaves no lease behind if and only if the worker id is trimmed and the mission names a trusted repository; the outcome and the whole row are given |
| Delivery.RollbackEndsTheWholeChain | src/ai_hq/delivery/service.py:120-541 | in every run a rolled-back delivery was reported PASSED by QA and never FAILED, then approved, published and deployed in this order inside 24 hours of that report, and the restored release is the recorded prior one |
| Delivery.RecordsRestOnApproval | src/ai_hq/delivery/service.py:208-441 | each record rests on the stage before it and on a request a human approved, which was opened by an accepted PASSED report for this proposal; a delivery QA reported FAILED has none |
| Delivery.ApprovalMeansPassReported | src/ai_hq/delivery/service.py:120-206 | in every run, a delivery waiting for or holding an approval was reported PASSED for its own change reference at the moment the request was opened |
| Delivery.FailureIsFinal | src/ai_hq/delivery/service.py:162-184 | in every run, after an accepted FAILED report a delivery is never given a request or a record |
| Delivery.SubmitExactly | src/ai_hq/delivery/service.py:62-118 | a proposal is accepted exactly for a queued or running mission without one |
| Delivery.QaExactly | src/ai_hq/delivery/service.py:120-206 | a QA report is accepted exactly for the proposal waiting for it; FAILED sends it back to the developer, PASSED opens a request for 24 hours |
| Delivery.DecisionExactly | src/ai_hq/delivery/service.py:443-541 | a decided, unexpired request of this proposal is applied exactly while the delivery waits for it; approval changes nothing, denial sends it back |
| Delivery.PublicationExactly | src/ai_hq/delivery/service.py:208-280 | a publication is accepted exactly with a valid name under an approval in force; a second one only with the same identity, and changes nothing |
| Delivery.DeploymentExactly | src/ai_hq/delivery/service.py:282-358 | a deployment is accepted exactly after the publication under an approval in force; a second one only with the same identity, and changes nothing |
| Delivery.RollbackExactly | src/ai_hq/delivery/service.py:360-441 | a rollback is accepted exactly after the deployment, to its prior release, under an approval in force; a second one changes nothing |
| Delivery.IdentitiesAreWrittenOnce | src/ai_hq/delivery/service.py:208-441 | proposal, publication, deployment and rollback identities with their times never change once written, and decisions stand |
| Delivery.ApprovalsAreNotShared | src/ai_hq/delivery/service.py:156-189 | one approval serves one delivery |
| Delivery.RunKeeps | src/ai_hq/delivery/service.py:62-541 | the chain invariant over every run |
| DeliveryService.Service.SubmitDeveloperProposal | src/ai_hq/delivery/service.py:62-118 | one proposal per queued or running mission |
| DeliveryService.Service.RecordQaResult | src/ai_hq/delivery/service.py:120-206 | a proposal QA reports FAILED goes back to the developer without a request, one it reports PASSED waits for approval with a request open for 24 hours; every other call is refused |
| DeliveryService.Service.RecordPublication | src/ai_hq/delivery/service.py:208-280 | accepted exactly under an unexpired approval; written once, repeatable with the same identity |
| DeliveryService.Service.RecordDeployment | src/ai_hq/delivery/service.py:282-358 | the same after publication |
| DeliveryService.Service.RecordRollback | src/ai_hq/delivery/service.py:360-441 | the same after deployment, only for the recorded prior release |
| DeliveryService.Service.ApplyHumanDecision | src/ai_hq/delivery/service.py:443-541 | approval leaves the delivery waiting; denial or withdrawal sends it back |
| DeliveryService.Service.GetDelivery | src/ai_hq/delivery/service.py:47-60 | the delivery or KeyError |
| DeliveryService.Service.GetRequest | src/ai_hq/delivery/service.py:241-250 | the request checked against mission, proposal and clock |
| DeliveryService.Service.Sound | src/ai_hq/delivery/service.py:34-541 | the chain invariant holds of the tables at every moment |
| DeliveryService.Service.DecideRequest | src/ai_hq/approvals/service.py:86-100 | a request is decided once |
| Releases.CodeChangeService.PublishApprovedCandidate | src/ai_hq/code_changes/service.py:374-463 | the publisher is called exactly when the approval is in force, nothing is published and the stored candidate is the approved one; what it returns is recorded only if it names that candidate |
| Releases.CodeChangeService.DeployApprovedCandidate | src/ai_hq/code_changes/service.py:465-565 | the deployer is called exactly when published, not deployed and approved, with the recorded publication |
| Releases.CodeChangeService.RollbackApprovedDeployment | src/ai_hq/code_changes/service.py:567-680 | the rollbacker is called exactly when deployed with a prior release, not rolled back and approved, and only for that release |
| Releases.CodeChangeService.Confirm | src/ai_hq/code_changes/service.py:381-419 | passes exactly when the delivery's own approval is persisted, approved and unexpired |
| Releases.CodeChangeService.CallPublisher | src/ai_hq/code_changes/service.py:440-458 | one call, then a record stamped with the time after it |
| Releases.CodeChangeService.CallDeployer | src/ai_hq/code_changes/service.py:544-560 | one call, then a record stamped with the time after it |
| Releases.CodeChangeService.CallRollbacker | src/ai_hq/code_changes/service.py:648-675 | one call, then a record stamped with the time after it |
| Releases.NoCallAfterRecord | src/ai_hq/code_changes/service.py:374-680 | once the record a foreign call leads to exists, no such call is made again |
| Releases.CallsFollowTheChain | src/ai_hq/code_changes/service.py:374-680 | every foreign call follows the preceding record under an approval not older than 24 hours |
| Manifests.ManifestJsonIsInjective | src/ai_hq/code_changes/candidate_store.py:209-244 | the sorted object of a manifest determines it |
| Manifests.ManifestDigestsIdentify | src/ai_hq/code_changes/candidate_store.py:209-244 | equal content digests mean equal manifests, or a collision is exhibited |
| Manifests.CanonicalDigestsIdentify | src/ai_hq/code_changes/candidate_store.py:238-244 | equal canonical digests mean equal values, or a collision is exhibited |
| Manifests.EntriesIdentify | src/ai_hq/delivery/repository_sandbox.py:450-477 | equal manifest entries mean equal files, or a collision is exhibited |
| Manifests.UntrackedMeans | src/ai_hq/delivery/repository_sandbox.py:451-460 | a path is left out of the manifest exactly when a part before its last one is `.git` |
| Manifests.PartsAreThePath | src/ai_hq/delivery/repository_sandbox.py:434-436 | the parts of a path hold no slash and are joined by slashes to the path |
| Candidate.IdentityJsonIsInjective | src/ai_hq/delivery/repository_workspace.py:168-178 | the identity payload determines the eight identity fields |
| Candidate.PlainIdentity | src/ai_hq/code_changes/candidate_store.py:86-95 | in a well-formed identity only mission id and paths can hold characters at or above DEL |
| Candidate.ReopensExactlyWhenPlain | src/ai_hq/code_changes/candidate_store.py:41-121 | a verified candidate with an unchanged workspace is reopened exactly when its identity is well formed and plain (or its two texts collide) |
| Candidate.ReloadIsTheVerifiedCandidate | src/ai_hq/code_changes/candidate_store.py:41-121 | any accepted reload under a verified reference has the same eight identity fields and manifest (or a collision is exhibited) |
| Candidate.Verify | src/ai_hq/delivery/candidate_verifier.py:29-127 | a proposal is verified exactly with a mission, a summary, passed tests and a diff unless nothing changed |
| Candidate.ReadChangedFile | src/ai_hq/code_changes/candidate_store.py:123-147 | a changed path is read exactly if it is safe, no directory and through no link: its content, or nothing if it was deleted |
| Candidate.SafePathMeans | src/ai_hq/code_changes/candidate_store.py:163-175 | a safe path is relative, normalized and outside the top-level `.git` |
| Ordering.SortedIsUnique | src/ai_hq/delivery/repository_sandbox.py:167-172 | a strictly sorted list of paths is determined by its elements |
| Ordering.Sort | src/ai_hq/delivery/repository_sandbox.py:167-172 | sorting a set of paths |
| Sandbox.ChangedMeansDifferent | src/ai_hq/delivery/repository_sandbox.py:166-173 | a path counts as changed exactly when it is tracked and its file differs, up to a collision |
| Sandbox.ChangedAreNamed | src/ai_hq/delivery/repository_sandbox.py:115-192 | changed files are among the paths the changes name |
| Sandbox.OnlyNamedChange | src/ai_hq/delivery/repository_sandbox.py:133-146 | a path no change names keeps its file |
| Sandbox.LastChangeDecides | src/ai_hq/delivery/repository_sandbox.py:133-146 | after the last change that names a path, the path holds its content or is absent |
| Sandbox.AppliesExactly | src/ai_hq/delivery/repository_sandbox.py:133-146 | a change can be made exactly at a normal path that is no directory and at or below no link, and for a write below no file |
| Sandbox.LinksStay | src/ai_hq/delivery/repository_sandbox.py:427-448 | no change is made at or below a symbolic link, and every link stays as it is |
| Sandbox.NamedPathsAreNormal | src/ai_hq/delivery/repository_sandbox.py:427-436 | every named path of a successful change list is relative and normalized |
| Sandbox.SectionsAre | src/ai_hq/delivery/repository_sandbox.py:296-318 | the diff has one section per path whose text differs, with both texts |
| Sandbox.VisibleWhenTextsDiffer | src/ai_hq/delivery/repository_sandbox.py:301-317 | a section shows lines exactly when the texts differ |
| Sandbox.DiffShowsChangedFiles | src/ai_hq/delivery/repository_sandbox.py:115-192 | for any change list applied once, changed files and shown paths coincide if and only if every differing named path is tracked just when its text differs in more than line endings |
| Sandbox.PlainChangesAreShown | src/ai_hq/delivery/repository_sandbox.py:290-322 | they coincide without carriage returns, untracked paths, or a swap of missing and empty |
| Sandbox.LineEndingsAreNotShown | src/ai_hq/delivery/repository_sandbox.py:276-288 | a concrete change that is a changed file without a diff section |
| Sandbox.NormSplits | src/ai_hq/delivery/repository_sandbox.py:276-288 | reading as text turns the first CR or CRLF into one LF and the rest on its own |
| SandboxService.IsolatedRepositorySandbox.Prepare | src/ai_hq/delivery/repository_sandbox.py:63-113 | a new workspace holds the source and its manifest as base |
| SandboxService.IsolatedRepositorySandbox.ApplyChanges | src/ai_hq/delivery/repository_sandbox.py:115-158 | succeeds exactly when every step can be made; the snapshot lists the sorted paths differing from the base and the kept diff is the one of this call; a failure leaves a prefix of the changes |
| SandboxService.IsolatedRepositorySandbox.WriteAndReview | src/ai_hq/delivery/repository_sandbox.py:122-157 | texts before, the changes, texts after and the diff between them |
| SandboxService.IsolatedRepositorySandbox.WriteChanges | src/ai_hq/delivery/repository_sandbox.py:131-146 | the changes in order, stopping at the first that fails |
| SandboxService.IsolatedRepositorySandbox.ReadBefore | src/ai_hq/delivery/repository_sandbox.py:123-129 | every named path is safe and readable before anything is written |
| SandboxService.IsolatedRepositorySandbox.ReadAfter | src/ai_hq/delivery/repository_sandbox.py:148-153 | the same paths afterwards |
| SandboxService.IsolatedRepositorySandbox.BuildReviewDiff | src/ai_hq/delivery/repository_sandbox.py:290-322 | sections in path order; more than 24000 characters are refused |
| SandboxService.IsolatedRepositorySandbox.Snapshot | src/ai_hq/delivery/repository_sandbox.py:160-192 | changed files, digests and the current fingerprint |
| SandboxService.IsolatedRepositorySandbox.ReviewDiffOf | src/ai_hq/delivery/repository_sandbox.py:194-205 | given exactly while the workspace is as the snapshot saw it |
| SandboxService.IsolatedRepositorySandbox.ChangedFiles | src/ai_hq/delivery/repository_sandbox.py:166-173 | the strictly sorted paths where base and workspace differ |
| SandboxService.IsolatedRepositorySandbox.ReadManifest | src/ai_hq/delivery/repository_sandbox.py:450-477 | the manifest walk |
| SandboxService.IsolatedRepositorySandbox.ManifestDigest | src/ai_hq/delivery/repository_sandbox.py:479-486 | the canonical digest of a manifest |
| AgentRunner.DeliveryAgentRunner.VerifyAndPersist | src/ai_hq/delivery/agent_runner.py:107-156 | apply, diff, tests, verification in this order; the resulting candidate is reopened if the base is main and its paths are safe and plain, and refused if the base or a path is not |
| Publisher.ReadBase | src/ai_hq/code_changes/publisher.py:182-203 | the listing is accepted exactly if it holds only directories and blobs with mode `100644` or `100755` |
| Publisher.BuildChanges | src/ai_hq/code_changes/publisher.py:205-239 | the posted changes overlay the base with exactly the changed paths: content, deletion, kept or default mode |
| Publisher.Publish | src/ai_hq/code_changes/publisher.py:160-279 | succeeds exactly when the remote is still at the candidate's base and every change can be made; in the published tree a kept changed path has the candidate's content with the mode it had or `100644`, a deleted one is gone, any other is as in the base; the name is one the delivery record accepts |
| Publisher.PublishedTreeIsTheWorkspace | src/ai_hq/code_changes/publisher.py:182-239 | when the base tree is the sandbox base, published tree and workspace agree at every tracked or changed path (or a collision is exhibited) |
| Context.Rank | src/ai_hq/code_changes/context.py:195-233 | exactly the eligible, readable, not sensitive files with a positive score, best score first, then by path |
| Context.Pack | src/ai_hq/code_changes/context.py:235-271 | the loop with its early stops makes the greedy choice among all files |
| Context.Build | src/ai_hq/code_changes/context.py:185-277 | a blank instruction is refused; otherwise the ranked files are packed, and every packed file passed every filter |
| Context.PacksWithinLimits | src/ai_hq/code_changes/context.py:235-271 | whole files, a subsequence of the ranking, within all three limits, negative ones included |
| Context.PackingIsMaximal | src/ai_hq/code_changes/context.py:235-271 | if fewer files than allowed were taken, every omitted non-empty file within the per-file limit exceeds what remains |
| Utf8.RoundTrip | src/ai_hq/host_helper/executor.py:237-241 | decoding undoes encoding |
| Utf8.TruncateIsLongestPrefix | src/ai_hq/host_helper/executor.py:237-241 | the result is the longest prefix of characters whose encoding fits the limit, and the flag says whether anything is missing |

## Left out

- RecoveryLoop.BudgetHoldsInEveryWindow: assumes prompt records; the other direction is given call by call by `RecoveryLoop.CallKeepsBudgetExactly`, since a late record may still happen to fit the budget.
- RecoveryCycle.RecoveryObserver.HandleExecutionResult: for a mission whose single step has not been handled yet, which is how the worker uses it.
- Candidate.ReopensExactlyWhenPlain: takes a snapshot whose text fields have no spaces around them, as its constructor leaves them; the constructor's lenient reading of hexadecimal digits is not modelled.
- AgentRunner.DeliveryAgentRunner.VerifyAndPersist: ends with the verified candidate; the handover to the delivery record is `DeliveryService.Service.SubmitDeveloperProposal`, which keeps evidence as plain text.
- Sandbox.DiffShowsChangedFiles: about one `apply_changes` call without colliding file digests; a later call replaces the review diff.
- Publisher.PublishedTreeIsTheWorkspace: assumes the remote's base tree is the sandbox base, since ignored files and the copy of the source are not modelled.
- MissionExecutor.Executor.RunNext: one uninterrupted call; what remains under interleaving is `PlanSteps.EveryInterleavingIsOrdered`.
- Leases.GrantsNeverOverlap: an interval ends where the latest renewal put it; a shorter renewal shortens it.
- The interval gate of the recovery worker (`src/ai_hq/recovery/bootstrap.py:374-420`): one comparison with the last run.
- Ledger rows, notifications, diagnostics and verification payloads, error messages, result payloads: written, never read by the protocols.
- Routes, login, sessions, templates, chat intents, department routing, agent seeding, knowledge memories, AI usage: request plumbing and single-branch rules.
- Sockets, HTTP clients, model providers, the MCP client, systemd and docker commands, git subprocesses: foreign calls.
- Symbolic links other than links to existing files, which make every path that is one or leads through one refused; empty directories, file modes of the workspace, copy excludes and shared dependency links.
- Floating-point numbers inside JSON values, and strings that are not sequences of Unicode scalar values.
- The text of `unified_diff` (a parameter), file scoring and the sensitive-content filter (parameters), test output summaries.
- A negative byte limit for truncation; the source always passes a positive one.
- The recovery drill: it inserts an incident with a preset failure count, outside the service's own timing.
- Progress after crashes: a step left RUNNING, or a denied delivery whose mission has no lease, is not picked up again by the code.
