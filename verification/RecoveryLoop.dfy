/**
 The recovery loop as a protocol over RecoveryService (src/ai_hq/recovery/observer.py,
 src/ai_hq/recovery/bootstrap.py). Creating a recovery mission is five separate transactions and its
 outcome comes back much later in two more; any number of workers may be between any two of them, and
 any other service call may happen in between.
 */
module RecoveryLoop {
  import opened Prelude
  import opened RecoveryPolicy
  import RecoveryStore
  import Runs

  type Store = RecoveryStore.Store

  /** Where one call of `create_recovery_mission` has got to. */
  datatype Stage = Decided | Pended | Permitted(at: int) | Created(mission: nat) | Finished

  datatype Creation = Creation(incident: nat, stage: Stage)

  datatype Outcome = Blocked | WaitingApproval | Simulated | Executed | Failed

  /** A mission's single step has not finished, has finished and awaits handling, or was handled. */
  datatype Phase = Open | Found(outcome: Outcome) | Handled

  datatype Mission = Mission(incident: nat, checkedAt: int, createdAt: int, phase: Phase)

  datatype Loop = Loop(store: Store, threshold: int, creations: seq<Creation>, missions: seq<Mission>)

  datatype Event =
    | Call(call: RecoveryStore.Event)
    | Decide(incident: nat, service: ServiceState, readiness: Readiness, observeOnly: bool)
    | Pend(creation: nat)
    | Check(creation: nat, notifications: bool)
    | Create(creation: nat)
    | Attach(creation: nat)
    | Find(mission: nat, outcome: Outcome)
    | Record(mission: nat)

  function Init(cfg: RecoveryStore.Config, threshold: int, now: int): Loop {
    Loop(RecoveryStore.Init(cfg, now), threshold, [], [])
  }

  function Incident(l: Loop, i: nat): RecoveryStore.Incident
    requires i < |l.store.incidents|
  {
    l.store.incidents[i]
  }

  predicate Chosen(l: Loop, i: nat, service: ServiceState, readiness: Readiness, observeOnly: bool) {
    && i < |l.store.incidents|
    && Incident(l, i).missionId.None?
    && DecideRecovery(Some(Incident(l, i).component), service, Incident(l, i).consecutiveFailures,
                      l.threshold, readiness).action == Recover
    && !observeOnly
  }

  /** A mission is due for exactly the persistent failure of a listed component that is down, while storage works. */
  lemma ChosenMeans(l: Loop, i: nat, service: ServiceState, readiness: Readiness, observeOnly: bool)
    ensures Chosen(l, i, service, readiness, observeOnly) <==>
            && i < |l.store.incidents| && l.store.incidents[i].missionId == None && !observeOnly
            && !l.store.incidents[i].component.Unlisted? && l.store.incidents[i].consecutiveFailures >= l.threshold
            && service == Down && readiness.ok != Yes
            && (readiness.storage.Some? ==> readiness.storage.value.available != No && readiness.storage.value.writable != No)
  {
    hide DecideRecovery;
  }

  function Stepped(l: Loop, k: nat, stage: Stage): Loop
    requires k < |l.creations|
  {
    l.(creations := l.creations[k := l.creations[k].(stage := stage)])
  }

  predicate At(l: Loop, k: nat, stage: Stage) {
    k < |l.creations| && l.creations[k].stage == stage && l.creations[k].incident < |l.store.incidents|
  }

  function After(l: Loop, e: RecoveryStore.Event): Loop {
    l.(store := RecoveryStore.Apply(l.store, e))
  }

  function OutcomeText(o: Outcome): string {
    if o.Simulated? then "simulated" else if o.Executed? then "executed" else "failed"
  }

  /** The write that makes a handled outcome permanent. */
  function OutcomeCall(l: Loop, m: nat): RecoveryStore.Event
    requires m < |l.missions| && l.missions[m].phase.Found?
  {
    var o := l.missions[m].phase.outcome;
    if o.Blocked? || o.WaitingApproval? then RecoveryStore.Escalate(l.missions[m].incident, "authorization_missing")
    else RecoveryStore.RecordAttempt(l.missions[m].incident, Some(m), o.Simulated?, OutcomeText(o))
  }

  function Apply(l: Loop, e: Event): Loop {
    match e
    case Call(call) =>
      // the loop attaches missions and records attempts only through its own events
      if call.AttachMission? || call.RecordAttempt? then l else After(l, call)
    case Decide(i, service, readiness, observeOnly) =>
      if Chosen(l, i, service, readiness, observeOnly) then l.(creations := l.creations + [Creation(i, Decided)]) else l
    case Pend(k) =>
      if !At(l, k, Decided) then l
      else
        var i := l.creations[k].incident;
        After(Stepped(l, k, if RecoveryStore.Pendable(Incident(l, i)) then Pended else Finished),
               RecoveryStore.MarkRecoveryPending(i))
    case Check(k, notifications) =>
      if !At(l, k, Pended) then l
      else
        var i := l.creations[k].incident;
        var allowance := RecoveryStore.CanRecover(l.store, i);
        if allowance.Allowed? then Stepped(l, k, Permitted(l.store.now))
        else if allowance.BudgetExhausted? && notifications then
          After(Stepped(l, k, Finished), RecoveryStore.Escalate(i, "budget_exhausted"))
        else Stepped(l, k, Finished)
    case Create(k) =>
      if k < |l.creations| && l.creations[k].stage.Permitted? then
        Stepped(l, k, Created(|l.missions|))
        .(missions := l.missions + [Mission(l.creations[k].incident, l.creations[k].stage.at, l.store.now, Open)])
      else l
    case Attach(k) =>
      if k < |l.creations| && l.creations[k].stage.Created? then
        After(Stepped(l, k, Finished), RecoveryStore.AttachMission(l.creations[k].incident, l.creations[k].stage.mission))
      else l
    case Find(m, outcome) =>
      if m < |l.missions| && l.missions[m].phase.Open? then
        var found := RecoveryStore.IncidentForMission(l.store.incidents, m);
        if found.Some? then l.(missions := l.missions[m := l.missions[m].(phase := Found(outcome))])
        else if outcome.Blocked? || outcome.WaitingApproval? then l
        else l.(missions := l.missions[m := l.missions[m].(phase := Handled)])
      else l
    case Record(m) =>
      if m < |l.missions| && l.missions[m].phase.Found? then
        After(l.(missions := l.missions[m := l.missions[m].(phase := Handled)]), OutcomeCall(l, m))
      else l
  }

  /**
   `record_attempt` does not look at the active key again. An event is prompt unless it records an outcome
   for an incident that was closed after `incident_for_mission` had found it active.
   */
  predicate Prompt(l: Loop, e: Event) {
    e.Record? && e.mission < |l.missions| && l.missions[e.mission].phase.Found? ==>
      && l.missions[e.mission].incident < |l.store.incidents|
      && Incident(l, l.missions[e.mission].incident).activeKey.Some?
  }

  ghost predicate AllPrompt(l: Loop, es: seq<Event>)
    decreases |es|
  {
    es == [] || (AllPrompt(l, es[..|es| - 1]) && Prompt(Runs.Replay(Apply, l, es[..|es| - 1]), es[|es| - 1]))
  }

  function PromptStep(l: Loop, e: Event): Loop {
    if Prompt(l, e) then Apply(l, e) else l
  }

  lemma {:induction false} PromptRuns(l: Loop, es: seq<Event>)
    requires AllPrompt(l, es)
    ensures Runs.Replay(Apply, l, es) == Runs.Replay(PromptStep, l, es)
    decreases |es|
  {
    if es != [] {
      PromptRuns(l, es[..|es| - 1]);
    }
  }

  // ---------- the budget ----------

  /** The closed window that starts at `from` holds at most `budget` real attempts on `c`. */
  predicate WindowHolds(s: Store, c: Component, from: int) {
    RecoveryStore.CountBetween(s.attempts, c, from, from + s.cfg.window) <= s.cfg.budget
  }

  ghost predicate WithinBudget(s: Store) {
    forall c, from :: WindowHolds(s, c, from)
  }

  ghost predicate RealRecorded(s: Store, i: nat) {
    exists k :: 0 <= k < |s.attempts| && s.attempts[k].incidentId == i && !s.attempts[k].simulated
  }

  /** A permission given at `at` is still covered by the budget until it is used or its incident closes. */
  ghost predicate Covered(s: Store, i: nat, at: int) {
    && i < |s.incidents| && at <= s.now
    && (s.incidents[i].activeKey.Some? && !RealRecorded(s, i) ==>
          RecoveryStore.CountSince(s.attempts, s.incidents[i].component, at - s.cfg.window) < s.cfg.budget)
  }

  ghost predicate CreationSound(l: Loop, c: Creation) {
    && c.incident < |l.store.incidents|
    && (c.stage.Permitted? ==> Covered(l.store, c.incident, c.stage.at))
    && (c.stage.Created? ==> c.stage.mission < |l.missions| && l.missions[c.stage.mission].incident == c.incident)
  }

  ghost predicate MissionSound(l: Loop, m: nat)
    requires m < |l.missions|
  {
    var mission := l.missions[m];
    && Covered(l.store, mission.incident, mission.checkedAt)
    && (mission.phase.Found? ==> Incident(l, mission.incident).missionId == Some(m))
  }

  ghost predicate AttachedSound(l: Loop, i: nat)
    requires i < |l.store.incidents|
  {
    var attached := Incident(l, i).missionId;
    && (attached.Some? ==> attached.value < |l.missions| && l.missions[attached.value].incident == i)
    && (RealRecorded(l.store, i) ==> attached.Some? && l.missions[attached.value].phase == Handled)
  }

  ghost predicate Inv(l: Loop) {
    && RecoveryStore.Inv(l.store)
    && l.store.cfg.Accepted()
    && (forall k :: 0 <= k < |l.creations| ==> CreationSound(l, l.creations[k]))
    && (forall m :: 0 <= m < |l.missions| ==> MissionSound(l, m))
    && (forall i :: 0 <= i < |l.store.incidents| ==> AttachedSound(l, i))
    && (forall k :: 0 <= k < |l.store.attempts| ==> l.store.attempts[k].incidentId < |l.store.incidents|)
    && WithinBudget(l.store)
  }

  lemma {:induction false} BetweenBelowSince(attempts: seq<RecoveryStore.Attempt>, c: Component, low: int, from: int, upTo: int)
    requires low <= from
    ensures RecoveryStore.CountBetween(attempts, c, from, upTo) <= RecoveryStore.CountSince(attempts, c, low)
    decreases |attempts|
  {
    if attempts != [] {
      BetweenBelowSince(attempts[..|attempts| - 1], c, low, from, upTo);
    }
  }

  lemma AppendCounts(attempts: seq<RecoveryStore.Attempt>, a: RecoveryStore.Attempt, c: Component, from: int, upTo: int)
    ensures RecoveryStore.CountBetween(attempts + [a], c, from, upTo)
            == RecoveryStore.CountBetween(attempts, c, from, upTo)
               + (if RecoveryStore.Real(a, c) && from <= a.at <= upTo then 1 else 0)
    ensures RecoveryStore.CountSince(attempts + [a], c, from)
            == RecoveryStore.CountSince(attempts, c, from)
               + (if RecoveryStore.Real(a, c) && from <= a.at then 1 else 0)
  {
  }

  /** A call that records no attempt changes nothing the loop's invariant depends on. */
  lemma StoreKeeps(l: Loop, t: Store)
    requires Inv(l) && RecoveryStore.Inv(t) && RecoveryStore.Later(l.store, t)
    requires t.attempts == l.store.attempts
    requires forall i :: 0 <= i < |t.incidents| && t.incidents[i].missionId.Some? ==>
               i < |l.store.incidents| && Incident(l, i).missionId == t.incidents[i].missionId
    ensures Inv(l.(store := t))
  {
    var l' := l.(store := t);
    var s := l.store;
    assert forall i :: RealRecorded(t, i) <==> RealRecorded(s, i);
    forall i: nat, at | Covered(s, i, at)
      ensures Covered(t, i, at)
    {
      assert RecoveryStore.Grown(s.incidents[i], t.incidents[i]);
    }
    forall k | 0 <= k < |l'.creations|
      ensures CreationSound(l', l'.creations[k])
    {
      assert CreationSound(l, l.creations[k]);
      assert RecoveryStore.Grown(Incident(l, l.creations[k].incident), Incident(l', l.creations[k].incident));
    }
    forall m | 0 <= m < |l'.missions|
      ensures MissionSound(l', m)
    {
      assert MissionSound(l, m);
      assert RecoveryStore.Grown(Incident(l, l.missions[m].incident), Incident(l', l.missions[m].incident));
    }
    forall i | 0 <= i < |t.incidents|
      ensures AttachedSound(l', i)
    {
      if i < |s.incidents| {
        assert AttachedSound(l, i);
        assert RecoveryStore.Grown(s.incidents[i], t.incidents[i]);
      } else {
        assert !RealRecorded(s, i);
      }
    }
    forall c, from
      ensures WindowHolds(t, c, from)
    {
      assert WindowHolds(s, c, from);
    }
  }

  lemma CallKeeps(l: Loop, e: RecoveryStore.Event)
    requires Inv(l) && !e.AttachMission? && !e.RecordAttempt?
    ensures Inv(After(l, e))
  {
    RecoveryStore.StepKeeps(l.store, e);
    StoreKeeps(l, RecoveryStore.Apply(l.store, e));
  }

  lemma SteppedKeeps(l: Loop, k: nat, stage: Stage)
    requires Inv(l) && k < |l.creations|
    requires CreationSound(l, l.creations[k].(stage := stage))
    ensures Inv(Stepped(l, k, stage))
  {
    var l' := Stepped(l, k, stage);
    forall j | 0 <= j < |l'.creations|
      ensures CreationSound(l', l'.creations[j])
    {
      assert CreationSound(l, l.creations[j]);
    }
    assert forall m :: 0 <= m < |l.missions| ==> MissionSound(l, m) ==> MissionSound(l', m);
    assert forall i :: 0 <= i < |l.store.incidents| ==> AttachedSound(l, i) ==> AttachedSound(l', i);
  }

  lemma DecideKeeps(l: Loop, e: Event)
    requires Inv(l) && e.Decide?
    ensures Inv(Apply(l, e))
  {
    if Chosen(l, e.incident, e.service, e.readiness, e.observeOnly) {
      var l' := Apply(l, e);
      forall j | 0 <= j < |l'.creations|
        ensures CreationSound(l', l'.creations[j])
      {
        if j < |l.creations| {
          assert CreationSound(l, l.creations[j]);
        }
      }
      assert forall m :: 0 <= m < |l.missions| ==> MissionSound(l, m) ==> MissionSound(l', m);
      assert forall k :: 0 <= k < |l.store.incidents| ==> AttachedSound(l, k) ==> AttachedSound(l', k);
    }
  }

  lemma CreateKeeps(l: Loop, k: nat)
    requires Inv(l)
    ensures Inv(Apply(l, Create(k)))
  {
    var l' := Apply(l, Create(k));
    if k < |l.creations| && l.creations[k].stage.Permitted? {
      assert CreationSound(l, l.creations[k]);
      forall j | 0 <= j < |l'.creations|
        ensures CreationSound(l', l'.creations[j])
      {
        assert CreationSound(l, l.creations[j]);
      }
      forall m | 0 <= m < |l'.missions|
        ensures MissionSound(l', m)
      {
        assert m < |l.missions| ==> MissionSound(l, m);
      }
      forall i | 0 <= i < |l'.store.incidents|
        ensures AttachedSound(l', i)
      {
        assert AttachedSound(l, i);
      }
    }
  }

  lemma AttachKeeps(l: Loop, k: nat)
    requires Inv(l)
    ensures Inv(Apply(l, Attach(k)))
  {
    if k < |l.creations| && l.creations[k].stage.Created? {
      assert CreationSound(l, l.creations[k]);
      var i, m := l.creations[k].incident, l.creations[k].stage.mission;
      SteppedKeeps(l, k, Finished);
      var l1 := Stepped(l, k, Finished);
      var l' := Apply(l, Attach(k));
      RecoveryStore.StepKeeps(l.store, RecoveryStore.AttachMission(i, m));
      assert forall j :: RealRecorded(l'.store, j) <==> RealRecorded(l.store, j);
      forall j | 0 <= j < |l'.creations|
        ensures CreationSound(l', l'.creations[j])
      {
        assert CreationSound(l1, l1.creations[j]);
      }
      forall j | 0 <= j < |l'.missions|
        ensures MissionSound(l', j)
      {
        assert MissionSound(l, j);
      }
      forall j | 0 <= j < |l'.store.incidents|
        ensures AttachedSound(l', j)
      {
        assert AttachedSound(l, j);
      }
      forall c, from
        ensures WindowHolds(l'.store, c, from)
      {
        assert WindowHolds(l.store, c, from);
      }
    }
  }

  lemma PhaseKeeps(l: Loop, m: nat, phase: Phase)
    requires Inv(l) && m < |l.missions| && l.missions[m].phase != Handled
    requires phase.Found? ==>
               l.missions[m].incident < |l.store.incidents| && Incident(l, l.missions[m].incident).missionId == Some(m)
    ensures Inv(l.(missions := l.missions[m := l.missions[m].(phase := phase)]))
  {
    var l' := l.(missions := l.missions[m := l.missions[m].(phase := phase)]);
    forall j | 0 <= j < |l'.creations|
      ensures CreationSound(l', l'.creations[j])
    {
      assert CreationSound(l, l.creations[j]);
    }
    forall j | 0 <= j < |l'.missions|
      ensures MissionSound(l', j)
    {
      assert MissionSound(l, j);
    }
    forall j | 0 <= j < |l'.store.incidents|
      ensures AttachedSound(l', j)
    {
      assert AttachedSound(l, j);
    }
  }

  lemma FindKeeps(l: Loop, m: nat, outcome: Outcome)
    requires Inv(l)
    ensures Inv(Apply(l, Find(m, outcome)))
  {
    if m < |l.missions| && l.missions[m].phase.Open? {
      var found := RecoveryStore.IncidentForMission(l.store.incidents, m);
      if found.Some? {
        assert AttachedSound(l, found.value);
        assert MissionSound(l, m);
        PhaseKeeps(l, m, Found(outcome));
      } else {
        PhaseKeeps(l, m, Handled);
      }
    }
  }

  /** What recording one more real attempt on incident `i` does to the budget and to the other permissions. */
  lemma RecordedStore(s: Store, i: nat, checkedAt: int, a: RecoveryStore.Attempt, t: Store)
    requires RecoveryStore.Inv(s) && WithinBudget(s) && s.cfg.Accepted()
    requires Covered(s, i, checkedAt) && s.incidents[i].activeKey.Some? && !RealRecorded(s, i)
    requires a.incidentId == i && a.component == s.incidents[i].component && a.at == s.now
    requires t.cfg == s.cfg && t.now == s.now && t.attempts == s.attempts + [a] && |t.incidents| == |s.incidents|
    requires forall j :: 0 <= j < |s.incidents| ==> t.incidents[j] == s.incidents[j].(lastAttemptAt := t.incidents[j].lastAttemptAt)
    ensures forall j :: RealRecorded(t, j) <==> RealRecorded(s, j) || (j == i && !a.simulated)
    ensures forall j: nat, at :: Covered(s, j, at) ==> Covered(t, j, at)
    ensures WithinBudget(t)
  {
    forall j
      ensures RealRecorded(t, j) <==> RealRecorded(s, j) || (j == i && !a.simulated)
    {
      assert t.attempts[|s.attempts|] == a;
      assert forall k :: 0 <= k < |s.attempts| ==> t.attempts[k] == s.attempts[k];
    }
    forall j: nat, at | Covered(s, j, at)
      ensures Covered(t, j, at)
    {
      AppendCounts(s.attempts, a, s.incidents[j].component, at - s.cfg.window, 0);
      if j != i && s.incidents[j].activeKey.Some? {
        assert s.incidents[j].component != s.incidents[i].component;
      }
    }
    forall c, from
      ensures WindowHolds(t, c, from)
    {
      AppendCounts(s.attempts, a, c, from, from + s.cfg.window);
      assert WindowHolds(s, c, from);
      if RecoveryStore.Real(a, c) && from <= a.at <= from + s.cfg.window {
        BetweenBelowSince(s.attempts, c, checkedAt - s.cfg.window, from, from + s.cfg.window);
      }
    }
  }

  /**
   The heart of the budget: the attempt recorded now was allowed at an earlier check, and every real attempt
   recorded since that check on the same component would have closed, or used up, the same incident.
   */
  lemma AttemptKeeps(l: Loop, m: nat, i: nat, simulated: bool, outcome: string)
    requires Inv(l) && m < |l.missions| && i == l.missions[m].incident
    requires l.missions[m].phase == Handled && i < |l.store.incidents|
    requires Incident(l, i).activeKey.Some? && Incident(l, i).missionId == Some(m)
    requires !RealRecorded(l.store, i)
    ensures Inv(After(l, RecoveryStore.RecordAttempt(i, Some(m), simulated, outcome)))
  {
    hide RecoveryStore.CountBetween, RecoveryStore.CountSince;
    var e := RecoveryStore.RecordAttempt(i, Some(m), simulated, outcome);
    var s, t := l.store, RecoveryStore.Apply(l.store, e);
    var l' := l.(store := t);
    RecoveryStore.StepKeeps(s, e);
    if t != s {
      assert MissionSound(l, m);
      RecordedStore(s, i, l.missions[m].checkedAt,
                    RecoveryStore.Attempt(i, s.incidents[i].component, Some(m), s.now, simulated, outcome), t);
      forall k | 0 <= k < |l'.creations|
        ensures CreationSound(l', l'.creations[k])
      {
        assert CreationSound(l, l.creations[k]);
      }
      forall j | 0 <= j < |l'.missions|
        ensures MissionSound(l', j)
      {
        assert MissionSound(l, j);
      }
      forall j | 0 <= j < |t.incidents|
        ensures AttachedSound(l', j)
      {
        assert AttachedSound(l, j);
      }
    }
  }

  lemma RecordKeeps(l: Loop, m: nat)
    requires Inv(l) && Prompt(l, Record(m))
    ensures Inv(Apply(l, Record(m)))
  {
    if m < |l.missions| && l.missions[m].phase.Found? {
      var i := l.missions[m].incident;
      assert MissionSound(l, m) && AttachedSound(l, i);
      PhaseKeeps(l, m, Handled);
      var l1 := l.(missions := l.missions[m := l.missions[m].(phase := Handled)]);
      var call := OutcomeCall(l, m);
      if call.RecordAttempt? {
        AttemptKeeps(l1, m, i, call.simulated, call.outcome);
      } else {
        CallKeeps(l1, call);
      }
    }
  }

  lemma CheckKeeps(l: Loop, k: nat, notifications: bool)
    requires Inv(l)
    ensures Inv(Apply(l, Check(k, notifications)))
  {
    if At(l, k, Pended) {
      var i := l.creations[k].incident;
      assert CreationSound(l, l.creations[k]);
      match RecoveryStore.CanRecover(l.store, i)
      case Allowed => SteppedKeeps(l, k, Permitted(l.store.now));
      case _ =>
        SteppedKeeps(l, k, Finished);
        CallKeeps(Stepped(l, k, Finished), RecoveryStore.Escalate(i, "budget_exhausted"));
    }
  }

  lemma PendKeeps(l: Loop, k: nat)
    requires Inv(l)
    ensures Inv(Apply(l, Pend(k)))
  {
    if At(l, k, Decided) {
      var i := l.creations[k].incident;
      assert CreationSound(l, l.creations[k]);
      var stage := if RecoveryStore.Pendable(Incident(l, i)) then Pended else Finished;
      SteppedKeeps(l, k, stage);
      CallKeeps(Stepped(l, k, stage), RecoveryStore.MarkRecoveryPending(i));
    }
  }

  lemma StepKeeps(l: Loop, e: Event)
    requires Inv(l)
    ensures Inv(PromptStep(l, e))
  {
    match e
    case Call(call) => if !call.AttachMission? && !call.RecordAttempt? { CallKeeps(l, call); }
    case Decide(_, _, _, _) => DecideKeeps(l, e);
    case Pend(k) => PendKeeps(l, k);
    case Check(k, notifications) => CheckKeeps(l, k, notifications);
    case Create(k) => CreateKeeps(l, k);
    case Attach(k) => AttachKeeps(l, k);
    case Find(m, outcome) => FindKeeps(l, m, outcome);
    case Record(m) => if Prompt(l, e) { RecordKeeps(l, m); }
  }

  lemma RunKeeps(cfg: RecoveryStore.Config, threshold: int, now: int, es: seq<Event>)
    requires cfg.Accepted()
    ensures Inv(Runs.Replay(PromptStep, Init(cfg, threshold, now), es))
  {
    forall l, e | Inv(l)
      ensures Inv(PromptStep(l, e))
    {
      StepKeeps(l, e);
    }
    Runs.Invariant(PromptStep, Inv, Init(cfg, threshold, now), es);
  }

  lemma SoundIsWithinBudget(l: Loop, c: Component, from: int)
    requires Inv(l)
    ensures RecoveryStore.CountBetween(l.store.attempts, c, from, from + l.store.cfg.window) <= l.store.cfg.budget
  {
    assert WindowHolds(l.store, c, from);
  }

  /** Main result: no run of the loop, however its workers interleave, exceeds the budget in any window. */
  lemma BudgetHoldsInEveryWindow(
    cfg: RecoveryStore.Config, threshold: int, now: int, es: seq<Event>, c: Component, from: int)
    requires cfg.Accepted()
    requires AllPrompt(Init(cfg, threshold, now), es)
    ensures var s := Runs.Replay(Apply, Init(cfg, threshold, now), es).store;
            RecoveryStore.CountBetween(s.attempts, c, from, from + cfg.window) <= cfg.budget
  {
    hide Inv, Apply, PromptStep;
    var init := Init(cfg, threshold, now);
    PromptRuns(init, es);
    RunKeeps(cfg, threshold, now, es);
    ConfigStays(init, es);
    SoundIsWithinBudget(Runs.Replay(PromptStep, init, es), c, from);
  }

  // ---------- exactly when the budget holds ----------

  /** A call that records a real attempt does so while the last window has room for one more. */
  predicate Spares(s: Store, e: RecoveryStore.Event) {
    e.RecordAttempt? && e.id < |s.incidents| && e.outcome != "" && |e.outcome| <= 32 && !e.simulated ==>
      RecoveryStore.CountSince(s.attempts, s.incidents[e.id].component, s.now - s.cfg.window) < s.cfg.budget
  }

  /** One call keeps every window within the budget if and only if it is spared. */
  lemma CallKeepsBudgetExactly(s: Store, e: RecoveryStore.Event)
    requires RecoveryStore.Inv(s) && s.cfg.Accepted() && WithinBudget(s)
    ensures WithinBudget(RecoveryStore.Apply(s, e)) <==> Spares(s, e)
  {
    var t := RecoveryStore.Apply(s, e);
    if e.RecordAttempt? && e.id < |s.incidents| && e.outcome != "" && |e.outcome| <= 32 {
      var a := RecoveryStore.Attempt(e.id, s.incidents[e.id].component, e.attemptMission, s.now, e.simulated, e.outcome);
      assert t.attempts == s.attempts + [a];
      if Spares(s, e) {
        forall c, from
          ensures WindowHolds(t, c, from)
        {
          assert WindowHolds(s, c, from);
          AppendCounts(s.attempts, a, c, from, from + s.cfg.window);
          if from <= s.now <= from + s.cfg.window {
            BetweenBelowSince(s.attempts, c, s.now - s.cfg.window, from, from + s.cfg.window);
          }
        }
      } else {
        AppendCounts(s.attempts, a, a.component, s.now - s.cfg.window, s.now);
        RecoveryStore.SinceIsBetween(s.attempts, a.component, s.now - s.cfg.window, s.now);
        assert !WindowHolds(t, a.component, s.now - s.cfg.window);
      }
    } else {
      SameAttempts(s, e);
      forall c, from
        ensures WindowHolds(t, c, from)
      {
        assert WindowHolds(s, c, from);
      }
    }
  }

  lemma SameAttempts(s: Store, e: RecoveryStore.Event)
    requires !(e.RecordAttempt? && e.id < |s.incidents| && e.outcome != "" && |e.outcome| <= 32)
    ensures RecoveryStore.Apply(s, e).attempts == s.attempts && RecoveryStore.Apply(s, e).cfg == s.cfg
  {
  }

  ghost predicate AlwaysWithin(s: Store, es: seq<RecoveryStore.Event>)
    decreases |es|
  {
    WithinBudget(Runs.Replay(RecoveryStore.Apply, s, es)) && (es != [] ==> AlwaysWithin(s, es[..|es| - 1]))
  }

  ghost predicate AllSpared(s: Store, es: seq<RecoveryStore.Event>)
    decreases |es|
  {
    es != [] ==>
      AllSpared(s, es[..|es| - 1]) && Spares(Runs.Replay(RecoveryStore.Apply, s, es[..|es| - 1]), es[|es| - 1])
  }

  /**
   For any sequence of service calls whatever: no window ever exceeds the budget if and only if each real attempt was
   recorded while the last window had room for it.
   */
  lemma {:induction false} BudgetHoldsExactlyWhenSpared(s: Store, es: seq<RecoveryStore.Event>)
    requires RecoveryStore.Inv(s) && s.cfg.Accepted() && WithinBudget(s)
    ensures AlwaysWithin(s, es) <==> AllSpared(s, es)
    decreases |es|
  {
    hide RecoveryStore.Apply, RecoveryStore.Inv, WithinBudget, Spares;
    if es != [] {
      var front := es[..|es| - 1];
      BudgetHoldsExactlyWhenSpared(s, front);
      if AlwaysWithin(s, front) {
        var mid := Runs.Replay(RecoveryStore.Apply, s, front);
        RecoveryStore.RunKeeps(s, front);
        CallKeepsBudgetExactly(mid, es[|es| - 1]);
      }
    }
  }

  // ---------- the age of an incident ----------

  /** The first failure is old enough for `threshold` observations to have passed by `at`. */
  predicate Aged(s: Store, threshold: int, i: nat, at: int) {
    i < |s.incidents| && s.incidents[i].firstFailureAt + (threshold - 1) * s.cfg.observation <= at
  }

  /** A call that may still create a mission has seen `threshold` spaced failures. */
  predicate CreationAged(l: Loop, c: Creation) {
    && c.incident < |l.store.incidents|
    && (c.stage.Decided? || c.stage.Pended? ==>
          Incident(l, c.incident).activeKey.Some? ==> Aged(l.store, l.threshold, c.incident, l.store.now))
    && (c.stage.Permitted? ==> Aged(l.store, l.threshold, c.incident, c.stage.at) && c.stage.at <= l.store.now)
  }

  predicate MissionAged(l: Loop, m: Mission) {
    Aged(l.store, l.threshold, m.incident, m.createdAt)
  }

  /** Unlike the budget, the age survives records that come late. */
  ghost predicate AgeInv(l: Loop) {
    && RecoveryStore.Inv(l.store) && l.store.cfg.Accepted()
    && (forall k :: 0 <= k < |l.creations| ==> CreationAged(l, l.creations[k]))
    && (forall m :: 0 <= m < |l.missions| ==> MissionAged(l, l.missions[m]))
  }

  lemma StoreStaysAged(l: Loop, e: RecoveryStore.Event)
    requires AgeInv(l)
    ensures AgeInv(After(l, e))
  {
    hide RecoveryStore.Apply;
    RecoveryStore.StepKeeps(l.store, e);
    var l' := After(l, e);
    forall k | 0 <= k < |l'.creations|
      ensures CreationAged(l', l'.creations[k])
    {
      assert CreationAged(l, l.creations[k]);
      assert RecoveryStore.Grown(Incident(l, l.creations[k].incident), Incident(l', l.creations[k].incident));
    }
    forall m | 0 <= m < |l'.missions|
      ensures MissionAged(l', l'.missions[m])
    {
      assert MissionAged(l, l.missions[m]);
      assert RecoveryStore.Grown(Incident(l, l.missions[m].incident), Incident(l', l.missions[m].incident));
    }
  }

  lemma SteppedStaysAged(l: Loop, k: nat, stage: Stage)
    requires AgeInv(l) && k < |l.creations| && CreationAged(l, l.creations[k].(stage := stage))
    ensures AgeInv(Stepped(l, k, stage))
  {
  }

  lemma StepStaysAged(l: Loop, e: Event)
    requires AgeInv(l)
    ensures AgeInv(Apply(l, e))
  {
    hide AgeInv, RecoveryStore.Apply, RecoveryStore.CanRecover, DecideRecovery, Chosen;
    match e
    case Call(call) => StoreStaysAged(l, call);
    case Decide(i, service, readiness, observeOnly) => DecideStaysAged(l, e);
    case Pend(k) =>
      if At(l, k, Decided) {
        AgedStages(l, k);
        var stage := if RecoveryStore.Pendable(Incident(l, l.creations[k].incident)) then Pended else Finished;
        SteppedStaysAged(l, k, stage);
        StoreStaysAged(Stepped(l, k, stage), RecoveryStore.MarkRecoveryPending(l.creations[k].incident));
      }
    case Check(k, notifications) =>
      if At(l, k, Pended) {
        CheckStaysAged(l, k, notifications);
      }
    case Create(k) => CreateStaysAged(l, k);
    case Attach(k) =>
      if k < |l.creations| && l.creations[k].stage.Created? {
        AgedStages(l, k);
        SteppedStaysAged(l, k, Finished);
        StoreStaysAged(Stepped(l, k, Finished), RecoveryStore.AttachMission(l.creations[k].incident, l.creations[k].stage.mission));
      }
    case Find(m, outcome) => if m < |l.missions| { PhaseStaysAged(l, m, Found(outcome)); PhaseStaysAged(l, m, Handled); }
    case Record(m) =>
      if m < |l.missions| && l.missions[m].phase.Found? {
        PhaseStaysAged(l, m, Handled);
        StoreStaysAged(l.(missions := l.missions[m := l.missions[m].(phase := Handled)]), OutcomeCall(l, m));
      }
  }

  lemma AgedStages(l: Loop, k: nat)
    requires AgeInv(l) && k < |l.creations|
    ensures CreationAged(l, l.creations[k]) && CreationAged(l, l.creations[k].(stage := Finished))
    ensures l.creations[k].stage == Decided ==> CreationAged(l, l.creations[k].(stage := Pended))
  {
  }

  lemma DecideStaysAged(l: Loop, e: Event)
    requires AgeInv(l) && e.Decide?
    ensures AgeInv(Apply(l, e))
  {
  }

  lemma CheckStaysAged(l: Loop, k: nat, notifications: bool)
    requires AgeInv(l) && At(l, k, Pended)
    ensures AgeInv(Apply(l, Check(k, notifications)))
  {
    AgedStages(l, k);
    var i := l.creations[k].incident;
    SteppedStaysAged(l, k, Finished);
    var allowance := RecoveryStore.CanRecover(l.store, i);
    if allowance.Allowed? {
      SteppedStaysAged(l, k, Permitted(l.store.now));
    } else if allowance.BudgetExhausted? && notifications {
      StoreStaysAged(Stepped(l, k, Finished), RecoveryStore.Escalate(i, "budget_exhausted"));
    }
  }

  lemma CreateStaysAged(l: Loop, k: nat)
    requires AgeInv(l)
    ensures AgeInv(Apply(l, Create(k)))
  {
  }

  lemma PhaseStaysAged(l: Loop, m: nat, phase: Phase)
    requires AgeInv(l) && m < |l.missions|
    ensures AgeInv(l.(missions := l.missions[m := l.missions[m].(phase := phase)]))
  {
  }

  /**
   In every run, each mission was created no sooner than (threshold - 1) observation intervals after the first
   failure of its incident.
   */
  lemma MissionsAreNotPremature(
    cfg: RecoveryStore.Config, threshold: int, now: int, es: seq<Event>, m: nat)
    requires cfg.Accepted()
    requires m < |Runs.Replay(Apply, Init(cfg, threshold, now), es).missions|
    ensures var l := Runs.Replay(Apply, Init(cfg, threshold, now), es);
            var mission := l.missions[m];
            && mission.incident < |l.store.incidents|
            && mission.createdAt >= Incident(l, mission.incident).firstFailureAt + (threshold - 1) * cfg.observation
  {
    hide Apply;
    var init := Init(cfg, threshold, now);
    forall l, e | AgeInv(l)
      ensures AgeInv(Apply(l, e))
    {
      StepStaysAged(l, e);
    }
    Runs.Invariant(Apply, AgeInv, init, es);
    ConfigStays(init, es);
    var l := Runs.Replay(Apply, init, es);
    assert MissionAged(l, l.missions[m]);
  }

  /** The configuration and the threshold are fixed for the whole run. */
  lemma ConfigStays(l: Loop, es: seq<Event>)
    ensures var t := Runs.Replay(Apply, l, es); t.store.cfg == l.store.cfg && t.threshold == l.threshold
  {
    var same := (t: Loop) => t.store.cfg == l.store.cfg && t.threshold == l.threshold;
    Runs.Invariant(Apply, same, l, es);
  }

  lemma FoundIsPrompt(l: Loop, m: nat, outcome: Outcome)
    requires Inv(l) && m < |l.missions| && l.missions[m].phase.Open?
    ensures Prompt(Apply(l, Find(m, outcome)), Record(m))
  {
    var found := RecoveryStore.IncidentForMission(l.store.incidents, m);
    if found.Some? {
      assert AttachedSound(l, found.value);
    }
  }

  /** A worker that records right after finding the active incident, as the single worker loop does, is prompt. */
  lemma RecordingAtOnceIsPrompt(l: Loop, es: seq<Event>, m: nat, outcome: Outcome)
    requires AllPrompt(l, es) && Inv(Runs.Replay(Apply, l, es))
    requires m < |Runs.Replay(Apply, l, es).missions| && Runs.Replay(Apply, l, es).missions[m].phase.Open?
    ensures AllPrompt(l, es + [Find(m, outcome)] + [Record(m)])
  {
    FoundIsPrompt(Runs.Replay(Apply, l, es), m, outcome);
    Runs.Extend(Apply, l, es, Find(m, outcome));
    ExtendPrompt(l, es, Find(m, outcome));
    ExtendPrompt(l, es + [Find(m, outcome)], Record(m));
  }

  lemma ExtendPrompt(l: Loop, es: seq<Event>, e: Event)
    requires AllPrompt(l, es) && Prompt(Runs.Replay(Apply, l, es), e)
    ensures AllPrompt(l, es + [e])
  {
  }

  // ---------- a run that is not prompt ----------

  ghost predicate Exceeds(cfg: RecoveryStore.Config, es: seq<Event>) {
    var s := Runs.Replay(Apply, Init(cfg, 2, 0), es).store;
    RecoveryStore.CountBetween(s.attempts, App, 0, cfg.window) > cfg.budget
  }

  lemma Then(l0: Loop, es: seq<Event>, l: Loop, e: Event) returns (es': seq<Event>, l': Loop)
    requires l == Runs.Replay(Apply, l0, es)
    ensures es' == es + [e] && l' == Apply(l, e) && l' == Runs.Replay(Apply, l0, es')
  {
    Runs.Extend(Apply, l0, es, e);
    es', l' := es + [e], Apply(l, e);
  }

  /** From a quiet component to an incident with two counted failures. */
  lemma UpToFailed(l0: Loop, es: seq<Event>, l: Loop, i: nat) returns (es': seq<Event>, l': Loop)
    requires l == Runs.Replay(Apply, l0, es)
    requires l.store.cfg == RecoveryStore.Config(2, 1, 1, 1, 100)
    requires i == |l.store.incidents| && RecoveryStore.ActiveIncident(l.store.incidents, App).None?
    ensures l' == Runs.Replay(Apply, l0, es')
    ensures var now := l.store.now + 1;
            l' == l.(store := l.store.(now := now, incidents := l.store.incidents + [
              RecoveryStore.Incident(Some(App), App, RecoveryStore.Diagnosing, 2, now - 1, now, now, None, None, None, None)]))
  {
    es', l' := Then(l0, es, l, Call(RecoveryStore.ObserveFailure(App)));
    assert l'.store.incidents[..i] == l.store.incidents;
    assert RecoveryStore.ActiveIncident(l'.store.incidents, App) == Some(i);
    es', l' := Then(l0, es', l', Call(RecoveryStore.Tick(1)));
    es', l' := Then(l0, es', l', Call(RecoveryStore.ObserveFailure(App)));
  }

  /** From there to an executed mission whose outcome has been found but not recorded. */
  lemma UpToFound(l0: Loop, es: seq<Event>, l: Loop, i: nat, k: nat) returns (es': seq<Event>, l': Loop)
    requires l == Runs.Replay(Apply, l0, es)
    requires l.store.cfg == RecoveryStore.Config(2, 1, 1, 1, 100) && l.threshold == 2
    requires i == |l.store.incidents| && k == |l.creations| && k == |l.missions| && l.store.attempts == []
    requires RecoveryStore.ActiveIncident(l.store.incidents, App).None?
    requires RecoveryStore.IncidentForMission(l.store.incidents, k).None?
    ensures l' == Runs.Replay(Apply, l0, es')
    ensures l'.store.cfg == l.store.cfg && l'.threshold == 2 && l'.store.attempts == [] && l'.store.now == l.store.now + 1
    ensures |l'.store.incidents| == i + 1 && l'.store.incidents[..i] == l.store.incidents
    ensures Incident(l', i).component == App && Incident(l', i).activeKey == Some(App) && Incident(l', i).missionId == Some(k)
    ensures |l'.creations| == k + 1 && l'.missions == l.missions + [Mission(i, l'.store.now, l'.store.now, Found(Executed))]
  {
    hide Runs.Replay, DecideRecovery;
    es', l' := UpToFailed(l0, es, l, i);
    es', l' := Then(l0, es', l', Decide(i, Down, Readiness(No, Unstated, None), false));
    es', l' := Then(l0, es', l', Pend(k));
    es', l' := Then(l0, es', l', Check(k, false));
    es', l' := Then(l0, es', l', Create(k));
    es', l' := Then(l0, es', l', Attach(k));
    assert l'.store.incidents[..i] == l.store.incidents;
    assert RecoveryStore.IncidentForMission(l'.store.incidents, k) == Some(i);
    es', l' := Then(l0, es', l', Find(k, Executed));
  }

  /** Two executed missions of one component, both found while their incident was active. */
  lemma TwoFound(cfg: RecoveryStore.Config) returns (es: seq<Event>, l: Loop)
    requires cfg == RecoveryStore.Config(2, 1, 1, 1, 100)
    ensures l == Runs.Replay(Apply, Init(cfg, 2, 0), es)
    ensures l.store.cfg == cfg && l.store.attempts == [] && l.store.now == 2 && |l.store.incidents| == 2
    ensures Incident(l, 0).component == App && Incident(l, 1).component == App
    ensures l.missions == [Mission(0, 1, 1, Found(Executed)), Mission(1, 2, 2, Found(Executed))]
  {
    var l0 := Init(cfg, 2, 0);
    es, l := UpToFound(l0, [], l0, 0, 0);
    assert l.store.incidents == [Incident(l, 0)];
    es, l := Then(l0, es, l, Call(RecoveryStore.ResolveIfHealthy(App)));
    assert l.store.incidents == [Incident(l, 0)] && Incident(l, 0).activeKey.None?;
    es, l := UpToFound(l0, es, l, 1, 1);
  }

  /**
   With two workers the bound can fail: worker one finds the active incident of its executed mission, the
   incident is resolved and a second one is opened, permitted, executed and recorded, and only then does
   worker one record its attempt against the closed incident.
   */
  lemma LateRecordExceedsBudget()
    ensures exists cfg: RecoveryStore.Config, es ::
              cfg.Accepted() && Exceeds(cfg, es) && !AllPrompt(Init(cfg, 2, 0), es)
  {
    var cfg := RecoveryStore.Config(2, 1, 1, 1, 100);
    var l0 := Init(cfg, 2, 0);
    var es, l := TwoFound(cfg);
    es, l := Then(l0, es, l, Record(1));
    es, l := Then(l0, es, l, Record(0));
    var first := RecoveryStore.Attempt(1, App, Some(1), 2, false, "executed");
    var second := RecoveryStore.Attempt(0, App, Some(0), 2, false, "executed");
    assert l.store.attempts == [] + [first] + [second];
    AppendCounts([], first, App, 0, 100);
    AppendCounts([] + [first], second, App, 0, 100);
    assert Exceeds(cfg, es);
    if AllPrompt(l0, es) {
      BudgetHoldsInEveryWindow(cfg, 2, 0, es, App, 0);
    }
  }
}
