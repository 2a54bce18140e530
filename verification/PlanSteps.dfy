/**
 The steps of one mission plan under any number of executor workers (src/ai_hq/missions/service.py,
 src/ai_hq/missions/executor.py). Claiming a step is a read followed by a conditional UPDATE, and resuming a
 waiting step is a read followed by a checked transition; other workers may run between the two.
 */
module PlanSteps {
  import opened Prelude
  import Runs

  datatype StepStatus = Pending | Running | WaitingApproval | Succeeded | Failed

  /** The transition table of plan steps. */
  predicate CanMove(from: StepStatus, to: StepStatus) {
    match from
    case Pending => to == Running
    case Running => to == WaitingApproval || to == Succeeded || to == Failed
    case WaitingApproval => to == Running || to == Failed
    case Succeeded => false
    case Failed => false
  }

  /** The table as the set of its moves. */
  lemma MovesAre(from: StepStatus, to: StepStatus)
    ensures CanMove(from, to) <==>
            (from, to) in {(Pending, Running), (Running, WaitingApproval), (Running, Succeeded), (Running, Failed),
                           (WaitingApproval, Running), (WaitingApproval, Failed)}
  {
  }

  /** The position of the first step that has not succeeded; the length of the plan if there is none. */
  function FirstIncomplete(steps: seq<StepStatus>): (k: nat)
    ensures k <= |steps|
    ensures forall i :: 0 <= i < k ==> steps[i] == Succeeded
    ensures k < |steps| ==> steps[k] != Succeeded
  {
    if steps == [] || steps[0] != Succeeded then 0 else 1 + FirstIncomplete(steps[1..])
  }

  /** The position of the first step that waits for approval; the length of the plan if there is none. */
  function FirstWaiting(steps: seq<StepStatus>): (k: nat)
    ensures k <= |steps|
    ensures forall i :: 0 <= i < k ==> steps[i] != WaitingApproval
    ensures k < |steps| ==> steps[k] == WaitingApproval
  {
    if steps == [] || steps[0] == WaitingApproval then 0 else 1 + FirstWaiting(steps[1..])
  }

  /** SUCCEEDED*, then at most one step that is neither, then PENDING*. */
  ghost predicate Shape(steps: seq<StepStatus>) {
    forall i :: FirstIncomplete(steps) < i < |steps| ==> steps[i] == Pending
  }

  // ---------- interleaved workers ----------

  /** A worker has read a claimable step, has read a waiting step, or is executing a step it claimed or resumed. */
  datatype Worker = Idle | SawIncomplete(step: nat) | SawWaiting(step: nat) | Executing(step: nat)

  datatype Plan = Plan(steps: seq<StepStatus>, workers: seq<Worker>, claims: seq<nat>)

  datatype Event =
    | ReadIncomplete(worker: nat)
    | Claim(worker: nat)
    | ReadWaiting(worker: nat)
    | Resume(worker: nat)
    | Finish(worker: nat, status: StepStatus)
    | Crash(worker: nat)

  function Init(n: nat, workers: nat): Plan {
    Plan(seq(n, _ => Pending), seq(workers, _ => Idle), [])
  }

  function Become(p: Plan, w: nat, worker: Worker): Plan
    requires w < |p.workers|
  {
    p.(workers := p.workers[w := worker])
  }

  /** A checked step transition: the status is written only if the table allows it. */
  function Moved(p: Plan, k: nat, to: StepStatus): Plan {
    if k < |p.steps| && CanMove(p.steps[k], to) then p.(steps := p.steps[k := to]) else p
  }

  function Apply(p: Plan, e: Event): Plan {
    if e.worker >= |p.workers| then p
    else
      var w, me := e.worker, p.workers[e.worker];
      match e
      case ReadIncomplete(_) =>
        var k := FirstIncomplete(p.steps);
        if me.Idle? && k < |p.steps| then Become(p, w, SawIncomplete(k)) else p
      case Claim(_) =>
        if !me.SawIncomplete? then p
        else if me.step < |p.steps| && p.steps[me.step] == Pending then
          Become(p, w, Executing(me.step)).(steps := p.steps[me.step := Running], claims := p.claims + [me.step])
        else Become(p, w, Idle)
      case ReadWaiting(_) =>
        var k := FirstWaiting(p.steps);
        if me.Idle? && k < |p.steps| then Become(p, w, SawWaiting(k)) else p
      case Resume(_) =>
        if !me.SawWaiting? then p
        else if me.step < |p.steps| && CanMove(p.steps[me.step], Running) then
          Become(Moved(p, me.step, Running), w, Executing(me.step))
        else Become(p, w, Idle)
      case Finish(_, status) =>
        if me.Executing? && status in {WaitingApproval, Succeeded, Failed} then
          Become(Moved(p, me.step, status), w, Idle)
        else p
      case Crash(_) => Become(p, w, Idle)
  }

  predicate WorkerSound(steps: seq<StepStatus>, worker: Worker) {
    match worker
    case Idle => true
    case SawIncomplete(k) => k < |steps| && k <= FirstIncomplete(steps)
    case SawWaiting(k) => k < |steps| && steps[k] != Pending
    case Executing(k) => k < |steps| && steps[k] == Running && k == FirstIncomplete(steps)
  }

  /** How many steps have left PENDING. */
  function Started(steps: seq<StepStatus>): nat {
    var k := FirstIncomplete(steps);
    if k < |steps| && steps[k] != Pending then k + 1 else k
  }

  ghost predicate Inv(p: Plan) {
    && Shape(p.steps)
    && (forall w :: 0 <= w < |p.workers| ==> WorkerSound(p.steps, p.workers[w]))
    && (forall v, w :: 0 <= v < w < |p.workers| ==> !(p.workers[v].Executing? && p.workers[w].Executing?))
    && p.claims == seq(Started(p.steps), i => i)
  }

  /** A step never returns to PENDING, and a step that succeeded or failed stays as it is. */
  ghost predicate Later(p: Plan, q: Plan) {
    && |q.steps| == |p.steps| && p.claims <= q.claims
    && (forall i :: 0 <= i < |p.steps| && p.steps[i] != Pending ==> q.steps[i] != Pending)
    && (forall i :: 0 <= i < |p.steps| && (p.steps[i] == Succeeded || p.steps[i] == Failed) ==> q.steps[i] == p.steps[i])
  }

  /** The first incomplete step is the first one that has not succeeded, however it is found. */
  lemma FirstIncompleteIs(steps: seq<StepStatus>, k: nat)
    requires k <= |steps| && (forall i :: 0 <= i < k ==> steps[i] == Succeeded)
    requires k < |steps| ==> steps[k] != Succeeded
    ensures FirstIncomplete(steps) == k
  {
  }

  /** What writing the status of the first incomplete step does to the shape. */
  lemma WriteKeepsShape(steps: seq<StepStatus>, to: StepStatus)
    requires Shape(steps) && FirstIncomplete(steps) < |steps| && to != Pending
    ensures var k := FirstIncomplete(steps);
            var written := steps[k := to];
            && Shape(written)
            && FirstIncomplete(written) == (if to == Succeeded then k + 1 else k)
            && Started(written) == k + 1
  {
    var k := FirstIncomplete(steps);
    FirstIncompleteIs(steps[k := to], if to == Succeeded then k + 1 else k);
  }

  lemma ClaimKeeps(p: Plan, w: nat)
    requires Inv(p) && w < |p.workers| && p.workers[w].SawIncomplete?
    ensures Inv(Apply(p, Claim(w))) && Later(p, Apply(p, Claim(w)))
  {
    hide FirstIncomplete;
    var k := p.workers[w].step;
    assert WorkerSound(p.steps, p.workers[w]);
    if p.steps[k] == Pending {
      FirstIncompleteIs(p.steps, k);
      WriteKeepsShape(p.steps, Running);
      assert seq(k, i => i) + [k] == seq(k + 1, i => i);
      forall v | 0 <= v < |p.workers| && v != w
        ensures WorkerSound(p.steps[k := Running], p.workers[v])
        ensures !p.workers[v].Executing?
      {
        assert WorkerSound(p.steps, p.workers[v]);
      }
    }
  }

  lemma ResumeKeeps(p: Plan, w: nat)
    requires Inv(p) && w < |p.workers| && p.workers[w].SawWaiting?
    ensures Inv(Apply(p, Resume(w))) && Later(p, Apply(p, Resume(w)))
  {
  }

  lemma FinishKeeps(p: Plan, w: nat, status: StepStatus)
    requires Inv(p) && w < |p.workers| && p.workers[w].Executing? && status in {WaitingApproval, Succeeded, Failed}
    ensures Inv(Apply(p, Finish(w, status))) && Later(p, Apply(p, Finish(w, status)))
  {
    hide FirstIncomplete;
    var k := p.workers[w].step;
    assert WorkerSound(p.steps, p.workers[w]);
    WriteKeepsShape(p.steps, status);
    forall v | 0 <= v < |p.workers| && v != w
      ensures WorkerSound(p.steps[k := status], p.workers[v])
    {
      assert WorkerSound(p.steps, p.workers[v]);
      assert !p.workers[v].Executing?;
    }
  }

  lemma StepKeeps(p: Plan, e: Event)
    requires Inv(p)
    ensures Inv(Apply(p, e)) && Later(p, Apply(p, e))
  {
    if e.worker < |p.workers| {
      match e
      case Claim(w) => if p.workers[w].SawIncomplete? { ClaimKeeps(p, w); }
      case Resume(w) => if p.workers[w].SawWaiting? { ResumeKeeps(p, w); }
      case Finish(w, status) =>
        if p.workers[w].Executing? && status in {WaitingApproval, Succeeded, Failed} { FinishKeeps(p, w, status); }
      case _ =>
    }
  }

  lemma InitHolds(n: nat, workers: nat)
    ensures Inv(Init(n, workers))
  {
  }

  lemma RunKeeps(p: Plan, es: seq<Event>)
    requires Inv(p)
    ensures Inv(Runs.Replay(Apply, p, es)) && Later(p, Runs.Replay(Apply, p, es))
  {
    forall q, e | Inv(q)
      ensures Inv(Apply(q, e)) && Later(q, Apply(q, e))
    {
      StepKeeps(q, e);
    }
    Runs.Ordered(Apply, Inv, Later, p, es);
  }

  /**
   Under any interleaving the plan keeps its shape, the successful claims are steps 0, 1, 2, ... in order and
   once each, and no two workers ever execute a step at the same time.
   */
  lemma EveryInterleavingIsOrdered(n: nat, workers: nat, es: seq<Event>)
    ensures var p := Runs.Replay(Apply, Init(n, workers), es);
            && |p.steps| == n && Shape(p.steps)
            && p.claims == seq(Started(p.steps), i => i)
            && (forall v, w :: 0 <= v < w < |p.workers| ==> !(p.workers[v].Executing? && p.workers[w].Executing?))
  {
    hide Apply;
    InitHolds(n, workers);
    RunKeeps(Init(n, workers), es);
  }

  /** Across any further run: a step leaves PENDING at most once, and its terminal statuses are final. */
  lemma StepsNeverGoBack(n: nat, workers: nat, es: seq<Event>, more: seq<Event>, i: nat)
    requires i < n
    ensures var p, q := Runs.Replay(Apply, Init(n, workers), es), Runs.Replay(Apply, Init(n, workers), es + more);
            && |p.steps| == n && |q.steps| == n
            && (p.steps[i] != Pending ==> q.steps[i] != Pending)
            && (p.steps[i] == Succeeded || p.steps[i] == Failed ==> q.steps[i] == p.steps[i])
            && p.claims <= q.claims
  {
    hide Apply;
    InitHolds(n, workers);
    RunKeeps(Init(n, workers), es);
    Runs.Split(Apply, Init(n, workers), es, more);
    RunKeeps(Runs.Replay(Apply, Init(n, workers), es), more);
  }

  /** What the claim of a worker that has read step k makes of any reachable plan. */
  lemma ClaimExactly(n: nat, workers: nat, es: seq<Event>, w: nat, k: nat)
    requires w < workers && |Runs.Replay(Apply, Init(n, workers), es).workers| == workers
    requires Runs.Replay(Apply, Init(n, workers), es).workers[w] == SawIncomplete(k)
    ensures var p := Runs.Replay(Apply, Init(n, workers), es);
            k < |p.steps|
            && Apply(p, Claim(w))
               == if p.steps[k] == Pending
                  then Plan(p.steps[k := Running], p.workers[w := Executing(k)], p.claims + [k])
                  else Plan(p.steps, p.workers[w := Idle], p.claims)
  {
    InitHolds(n, workers);
    RunKeeps(Init(n, workers), es);
    assert WorkerSound(Runs.Replay(Apply, Init(n, workers), es).steps, SawIncomplete(k));
  }

  /** A worker that has read step k as waiting resumes it exactly if it still waits. */
  lemma ResumeExactly(n: nat, workers: nat, es: seq<Event>, w: nat, k: nat)
    requires w < workers && |Runs.Replay(Apply, Init(n, workers), es).workers| == workers
    requires Runs.Replay(Apply, Init(n, workers), es).workers[w] == SawWaiting(k)
    ensures var p := Runs.Replay(Apply, Init(n, workers), es);
            k < |p.steps|
            && Apply(p, Resume(w))
               == if p.steps[k] == WaitingApproval
                  then Plan(p.steps[k := Running], p.workers[w := Executing(k)], p.claims)
                  else Plan(p.steps, p.workers[w := Idle], p.claims)
  {
    InitHolds(n, workers);
    RunKeeps(Init(n, workers), es);
    assert WorkerSound(Runs.Replay(Apply, Init(n, workers), es).steps, SawWaiting(k));
  }

  /** A worker that executes step k can always write its outcome, and then no step is RUNNING. */
  lemma FinishExactly(n: nat, workers: nat, es: seq<Event>, w: nat, k: nat, status: StepStatus)
    requires w < workers && |Runs.Replay(Apply, Init(n, workers), es).workers| == workers
    requires Runs.Replay(Apply, Init(n, workers), es).workers[w] == Executing(k)
    requires status == WaitingApproval || status == Succeeded || status == Failed
    ensures var p := Runs.Replay(Apply, Init(n, workers), es);
            && k < |p.steps|
            && Apply(p, Finish(w, status)) == Plan(p.steps[k := status], p.workers[w := Idle], p.claims)
            && forall i :: 0 <= i < |p.steps| ==> Apply(p, Finish(w, status)).steps[i] != Running
  {
    InitHolds(n, workers);
    RunKeeps(Init(n, workers), es);
    var p := Runs.Replay(Apply, Init(n, workers), es);
    assert WorkerSound(p.steps, Executing(k));
  }

  /** An idle worker reads the first step that has not succeeded, or the first that waits, if there is one. */
  lemma ReadsExactly(p: Plan, w: nat, k: nat)
    requires w < |p.workers| && p.workers[w] == Idle && k < |p.steps|
    ensures (forall i :: 0 <= i < k ==> p.steps[i] == Succeeded) && p.steps[k] != Succeeded ==>
              Apply(p, ReadIncomplete(w)) == p.(workers := p.workers[w := SawIncomplete(k)])
    ensures (forall i :: 0 <= i < k ==> p.steps[i] != WaitingApproval) && p.steps[k] == WaitingApproval ==>
              Apply(p, ReadWaiting(w)) == p.(workers := p.workers[w := SawWaiting(k)])
  {
    if (forall i :: 0 <= i < k ==> p.steps[i] == Succeeded) && p.steps[k] != Succeeded {
      FirstIncompleteIs(p.steps, k);
    }
  }
}
