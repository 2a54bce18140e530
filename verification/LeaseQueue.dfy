/**
 The code-change queue as its workers use it: claim, renew and release (src/ai_hq/missions/service.py), the
 processing of a claimed mission (src/ai_hq/code_changes/service.py) and one pass of a queue worker
 (src/ai_hq/code_changes/worker.py). Everything done to the rows is a run of Leases.
 */
module LeaseQueue {
  import opened Prelude
  import opened Leases
  import Runs
  import Text

  /** A mission the queue may hand out now. */
  predicate Available(r: Row, now: int) {
    IsCodeChange(r) && Claimable(r, now)
  }

  class MissionQueue {
    var rows: seq<Row>
    var now: int
    ghost var tracks: seq<Track>
    ghost var seen: map<string, int>
    ghost var history: seq<Event>
    ghost const start: int

    ghost function View(): Store
      reads this
    {
      Store(rows, tracks, seen, now)
    }

    ghost predicate Valid()
      reads this
    {
      View() == Runs.Replay(Apply, Init(start), history)
    }

    lemma Sound()
      requires Valid()
      ensures Inv(View())
    {
      RunKeeps(start, history);
    }

    constructor (now: int)
      ensures Valid() && rows == [] && this.now == now
    {
      rows, this.now, tracks, seen, history, start := [], now, [], map[], [], now;
    }

    ghost method Log(before: Store, e: Event)
      requires before == Runs.Replay(Apply, Init(start), history)
      requires rows == Apply(before, e).rows && now == Apply(before, e).now
      modifies this`tracks, this`seen, this`history
      ensures Valid() && View() == Apply(before, e) && history == old(history) + [e]
    {
      hide Apply;
      Runs.Extend(Apply, Init(start), history, e);
      tracks, seen, history := Apply(before, e).tracks, Apply(before, e).seen, history + [e];
    }

    /** The conditional UPDATE of a claim; the candidate is claimed only if it is still available. */
    method TryClaim(i: nat, worker: string, at: int, seconds: int) returns (claimed: bool)
      requires Valid() && i < |rows| && at == now && seconds >= SHORTEST
      modifies this
      ensures Valid() && now == old(now) && claimed == Available(old(rows)[i], at)
      ensures View() == Apply(old(View()), Claim(i, worker, at, seconds))
      ensures rows == if !claimed then old(rows)
                      else old(rows)[i := old(rows)[i].(status := Running, leaseOwner := Some(worker),
                                                        leaseExpiresAt := Some(at + seconds * SECOND), attempts := old(rows)[i].attempts + 1)]
    {
      hide Runs.Replay, TrackSound;
      Sound();
      ghost var before := View();
      claimed := IsCodeChange(rows[i]) && Claimable(rows[i], at);
      if claimed {
        rows := rows[i := rows[i].(status := Running, leaseOwner := Some(worker),
                                   leaseExpiresAt := Some(at + seconds * SECOND), attempts := rows[i].attempts + 1)];
      }
      Log(before, Claim(i, worker, at, seconds));
    }

    /** The available missions, oldest first, at most eight. */
    method Candidates(at: int) returns (ids: seq<nat>)
      ensures |ids| <= 8 && forall k :: 0 <= k < |ids| ==> ids[k] < |rows| && Available(rows[ids[k]], at)
      ensures ids == [] <==> forall i :: 0 <= i < |rows| ==> !Available(rows[i], at)
      ensures ids != [] ==> forall i :: 0 <= i < ids[0] ==> !Available(rows[i], at)
    {
      ids := [];
      for i := 0 to |rows|
        invariant |ids| <= 8 && forall k :: 0 <= k < |ids| ==> ids[k] < i && Available(rows[ids[k]], at)
        invariant ids == [] ==> forall j :: 0 <= j < i ==> !Available(rows[j], at)
        invariant ids != [] ==> forall j :: 0 <= j < ids[0] ==> !Available(rows[j], at)
      {
        if |ids| < 8 && IsCodeChange(rows[i]) && Claimable(rows[i], at) {
          ids := ids + [i];
        }
      }
    }

    /** Claims the oldest available mission for a named worker, if there is one. */
    method ClaimOldestCodeChange(workerId: string, leaseSeconds: int) returns (r: Result<Option<nat>>)
      requires Valid()
      modifies this
      ensures Valid() && now == old(now)
      ensures r.Err? <==> Text.Strip(workerId) == "" || leaseSeconds < SHORTEST
      ensures r.Err? || r.value.None? ==> rows == old(rows)
      ensures r.Ok? && r.value.None? ==> forall i :: 0 <= i < |old(rows)| ==> !Available(old(rows)[i], now)
      ensures r.Ok? && r.value.Some? ==>
                var i := r.value.value;
                && i < |old(rows)| && Available(old(rows)[i], now) && (forall j :: 0 <= j < i ==> !Available(old(rows)[j], now))
                && rows == old(rows)[i := Leases.Claimed(old(rows)[i], Text.Strip(workerId), now + leaseSeconds * SECOND)]
                && View() == Apply(old(View()), Claim(i, Text.Strip(workerId), now, leaseSeconds))
    {
      hide Runs.Replay, Apply, Text.Strip, Leases.Claimed, Available;
      var worker := Text.Strip(workerId);
      if worker == "" || leaseSeconds < 60 {
        return Err(ValueError);
      }
      var at := now;
      var ids := Candidates(at);
      r := ClaimFirst(ids, worker, at, leaseSeconds);
    }

    /** Tries the candidates in order; with nothing in between, the first one is still available. */
    method ClaimFirst(ids: seq<nat>, worker: string, at: int, seconds: int) returns (r: Result<Option<nat>>)
      requires Valid() && at == now && seconds >= SHORTEST
      requires forall k :: 0 <= k < |ids| ==> ids[k] < |rows| && Available(rows[ids[k]], at)
      modifies this
      ensures Valid() && now == old(now) && r.Ok? && (r.value.None? <==> ids == [])
      ensures r.value.None? ==> rows == old(rows)
      ensures r.value.Some? ==>
                && r.value.value == ids[0]
                && rows == old(rows)[ids[0] := Leases.Claimed(old(rows)[ids[0]], worker, at + seconds * SECOND)]
                && View() == Apply(old(View()), Claim(ids[0], worker, at, seconds))
    {
      hide Runs.Replay, Apply, Available;
      for k := 0 to |ids|
        invariant k == 0 && Valid() && rows == old(rows) && now == at && View() == old(View())
      {
        var claimed := TryClaim(ids[k], worker, at, seconds);
        if claimed {
          return Ok(Some(ids[k]));
        }
      }
      r := Ok(None);
    }

    /** Extends a lease that its owner still holds; a lost or expired lease is not revived. */
    method RenewCodeChangeLease(i: nat, workerId: string, leaseSeconds: int) returns (r: Result<bool>)
      requires Valid()
      modifies this
      ensures Valid() && now == old(now)
      ensures r.Err? <==> leaseSeconds < SHORTEST
      ensures r.Ok? ==> (r.value <==> i < |old(rows)| && Renewable(old(rows)[i], workerId, now))
      ensures r.Ok? && r.value ==>
                var row := old(rows)[i];
                && row.source == "hq_chat_code_change" && row.owner == "developer" && row.status == Running
                && row.leaseOwner == Some(workerId) && row.leaseExpiresAt.Some? && row.leaseExpiresAt.value >= now
      ensures r.Ok? && r.value ==> rows == old(rows)[i := old(rows)[i].(leaseExpiresAt := Some(now + leaseSeconds * SECOND))]
      ensures r.Err? || !r.value ==> rows == old(rows)
    {
      hide Runs.Replay, TrackSound;
      if leaseSeconds < 60 {
        return Err(ValueError);
      }
      Sound();
      ghost var before := View();
      var at := now;
      var renewed := i < |rows| && IsCodeChange(rows[i]) && rows[i].status == Running && rows[i].leaseOwner == Some(workerId)
        && rows[i].leaseExpiresAt.Some? && rows[i].leaseExpiresAt.value >= at;
      if renewed {
        rows := rows[i := rows[i].(leaseExpiresAt := Some(at + leaseSeconds * SECOND))];
      }
      Log(before, Renew(i, workerId, at, leaseSeconds));
      r := Ok(renewed);
    }

    /** Gives a lease back, expired or not, if the worker is still its owner. */
    method ReleaseCodeChangeLease(i: nat, workerId: string) returns (released: bool)
      requires Valid()
      modifies this
      ensures Valid() && now == old(now)
      ensures released <==> i < |old(rows)| && old(rows)[i].leaseOwner == Some(workerId)
      ensures rows == if released then old(rows)[i := old(rows)[i].(leaseOwner := None, leaseExpiresAt := None)] else old(rows)
    {
      hide Runs.Replay, TrackSound;
      Sound();
      ghost var before := View();
      released := i < |rows| && rows[i].leaseOwner == Some(workerId);
      if released {
        rows := rows[i := rows[i].(leaseOwner := None, leaseExpiresAt := None)];
      }
      Log(before, Release(i, workerId));
    }

    method SetMissionStatus(i: nat, status: Status)
      requires Valid() && i < |rows|
      modifies this
      ensures Valid() && now == old(now) && rows == old(rows)[i := old(rows)[i].(status := status)]
    {
      hide Runs.Replay, TrackSound;
      Sound();
      ghost var before := View();
      rows := rows[i := rows[i].(status := status)];
      Log(before, SetStatus(i, status));
    }

    method Wait(ticks: nat)
      requires Valid()
      modifies this
      ensures Valid() && now == old(now) + ticks && rows == old(rows)
    {
      hide Runs.Replay, TrackSound;
      ghost var before := View();
      now := now + ticks;
      Log(before, Tick(ticks));
    }
  }

  /**
   One foreign run, of the developer or of QA: whether it is due, how long it takes, the status it leaves the
   mission in, and whether it returns.
   */
  datatype Work = Work(due: bool, ticks: nat, status: Status, completes: bool)

  /** A worker under a lease goes on only if it can renew it; a direct call goes on always. */
  predicate MayGoOn(r: Row, leaseOwner: Option<string>, leaseSeconds: int, now: int) {
    leaseOwner.Some? ==> leaseSeconds >= 60 && Renewable(r, leaseOwner.value, now)
  }

  /**
   QA runs: it is due, the lease could be renewed to begin with, and the developer, if due, returned, leaving the
   mission RUNNING and the lease renewed before its run not expired.
   */
  predicate QaRuns(may: bool, leaseOwner: Option<string>, leaseSeconds: int, developer: Work, qa: Work) {
    && qa.due && may
    && (developer.due ==>
          developer.completes && (leaseOwner.Some? ==> developer.status == Running && developer.ticks <= leaseSeconds * SECOND))
  }

  /** The status in which the foreign runs leave a mission found in `status`. */
  function LeftAs(may: bool, leaseOwner: Option<string>, leaseSeconds: int, developer: Work, qa: Work, status: Status): Status {
    if QaRuns(may, leaseOwner, leaseSeconds, developer, qa) then qa.status
    else if developer.due && may then developer.status
    else status
  }

  /** All that was due has returned, and the mission can take its final status. */
  predicate Succeeds(may: bool, leaseOwner: Option<string>, leaseSeconds: int, developer: Work, qa: Work, ready: bool, status: Status) {
    && (developer.due ==> may && developer.completes)
    && (qa.due ==> QaRuns(may, leaseOwner, leaseSeconds, developer, qa) && qa.completes)
    && LeftAs(may, leaseOwner, leaseSeconds, developer, qa, status) in {Running, if ready then AwaitingApproval else Completed}
  }

  /** The time the foreign runs take. */
  function TimeTaken(may: bool, leaseOwner: Option<string>, leaseSeconds: int, developer: Work, qa: Work): nat {
    (if developer.due && may then developer.ticks else 0)
    + if QaRuns(may, leaseOwner, leaseSeconds, developer, qa) then qa.ticks else 0
  }

  class CodeChangeService {
    const queue: MissionQueue

    constructor (queue: MissionQueue)
      ensures this.queue == queue
    {
      this.queue := queue;
    }

    /** `_renew_worker_lease` */
    method RenewWorkerLease(i: nat, leaseOwner: Option<string>, leaseSeconds: int) returns (r: Result<()>)
      requires queue.Valid() && i < |queue.rows|
      modifies queue
      ensures queue.Valid() && queue.now == old(queue.now)
      ensures r.Ok? <==> MayGoOn(old(queue.rows)[i], leaseOwner, leaseSeconds, queue.now)
      ensures queue.rows == if r.Ok? && leaseOwner.Some?
                            then old(queue.rows)[i := old(queue.rows)[i].(leaseExpiresAt := Some(queue.now + leaseSeconds * SECOND))]
                            else old(queue.rows)
    {
      if leaseOwner.None? {
        return Ok(());
      }
      var renewed := queue.RenewCodeChangeLease(i, leaseOwner.value, leaseSeconds);
      r := if renewed.Err? then Err(renewed.error) else if renewed.value then Ok(()) else Err(RuntimeError);
    }

    /** A due piece of foreign work runs only under a lease that has just been renewed. */
    method Perform(i: nat, work: Work, leaseOwner: Option<string>, leaseSeconds: int) returns (r: Result<()>)
      requires queue.Valid() && i < |queue.rows|
      modifies queue
      ensures queue.Valid()
      ensures var ran := work.due && MayGoOn(old(queue.rows)[i], leaseOwner, leaseSeconds, old(queue.now));
              && (r.Ok? <==> work.due ==> ran && work.completes)
              && queue.now == old(queue.now) + (if ran then work.ticks else 0)
              && (!ran ==> queue.rows == old(queue.rows))
              && (ran ==> queue.rows == old(queue.rows)[i := old(queue.rows)[i].(
                    status := work.status,
                    leaseExpiresAt := if leaseOwner.Some? then Some(old(queue.now) + leaseSeconds * SECOND)
                                      else old(queue.rows)[i].leaseExpiresAt)])
    {
      if !work.due {
        return Ok(());
      }
      var renewed := RenewWorkerLease(i, leaseOwner, leaseSeconds);
      if renewed.Err? {
        return Err(renewed.error);
      }
      queue.Wait(work.ticks);
      queue.SetMissionStatus(i, work.status);
      r := if work.completes then Ok(()) else Err(RuntimeError);
    }

    /**
     The preparation of a candidate: developer, then QA, each if due; then the mission takes its final status. It
     succeeds exactly when everything due ran and returned and left the mission where it can take that status.
     */
    method Prepare(i: nat, developer: Work, qa: Work, ready: bool, leaseOwner: Option<string>, leaseSeconds: int) returns (r: Result<()>)
      requires queue.Valid() && i < |queue.rows|
      modifies queue
      ensures queue.Valid() && |queue.rows| == |old(queue.rows)|
      ensures r.Ok? ==> (developer.due ==> developer.completes) && (qa.due ==> qa.completes)
      ensures r.Ok? ==> queue.now == old(queue.now) + (if developer.due then developer.ticks else 0) + if qa.due then qa.ticks else 0
      ensures r.Ok? ==> queue.rows[i].status == if ready then AwaitingApproval else Completed
      ensures var row := old(queue.rows)[i];
              var may := MayGoOn(row, leaseOwner, leaseSeconds, old(queue.now));
              && (r.Ok? <==> Succeeds(may, leaseOwner, leaseSeconds, developer, qa, ready, row.status))
              && (r.Err? ==> queue.rows[i].status == LeftAs(may, leaseOwner, leaseSeconds, developer, qa, row.status))
              && queue.now == old(queue.now) + TimeTaken(may, leaseOwner, leaseSeconds, developer, qa)
              && queue.rows == old(queue.rows)[i := row.(status := queue.rows[i].status, leaseExpiresAt := queue.rows[i].leaseExpiresAt)]
              && (leaseOwner.None? ==> queue.rows[i].leaseExpiresAt == row.leaseExpiresAt)
    {
      hide Runs.Replay, Apply;
      r := Perform(i, developer, leaseOwner, leaseSeconds);
      if r.Err? {
        return;
      }
      r := Perform(i, qa, leaseOwner, leaseSeconds);
      if r.Err? {
        return;
      }
      var target := if ready then AwaitingApproval else Completed;
      if queue.rows[i].status == target {
        return Ok(());
      }
      if queue.rows[i].status != Running {
        return Err(RuntimeError);
      }
      queue.SetMissionStatus(i, target);
    }

    /** Whether processing of the mission goes past its entry checks. */
    predicate Accepts(i: nat, leaseOwner: Option<string>, leaseSeconds: int)
      reads queue
    {
      && i < |queue.rows| && IsCodeChange(queue.rows[i]) && queue.rows[i].trusted
      && if leaseOwner.None? then queue.rows[i].status in {Queued, Running}
         else leaseSeconds >= 60 && Renewable(queue.rows[i], leaseOwner.value, queue.now)
    }

    /** The checks before preparation: an unleased mission is started, a leased one must still be held. */
    method Enter(i: nat, leaseOwner: Option<string>, leaseSeconds: int) returns (r: Result<()>)
      requires queue.Valid() && i < |queue.rows| && IsCodeChange(queue.rows[i]) && queue.rows[i].trusted
      requires queue.rows[i].status !in {AwaitingApproval, Completed}
      modifies queue
      ensures queue.Valid() && queue.now == old(queue.now)
      ensures r.Ok? <==> old(Accepts(i, leaseOwner, leaseSeconds))
      ensures r.Err? ==> queue.rows == old(queue.rows)
      ensures r.Ok? ==> queue.rows == old(queue.rows)[i := old(queue.rows)[i].(
                          status := Running,
                          leaseExpiresAt := if leaseOwner.Some? then Some(queue.now + leaseSeconds * SECOND)
                                            else old(queue.rows)[i].leaseExpiresAt)]
    {
      var row := queue.rows[i];
      if row.status == Queued {
        if leaseOwner.Some? {
          return Err(ValueError);
        }
        queue.SetMissionStatus(i, Running);
        return Ok(());
      }
      if row.status != Running {
        return Err(ValueError);
      }
      if leaseOwner.Some? {
        if row.leaseOwner != leaseOwner {
          return Err(ValueError);
        }
        var renewed := queue.RenewCodeChangeLease(i, leaseOwner.value, leaseSeconds);
        if renewed.Err? {
          return Err(renewed.error);
        }
        if !renewed.value {
          return Err(RuntimeError);
        }
      }
      r := Ok(());
    }

    /**
     Processes a claimed mission. Once past the entry checks, however preparation ends, the worker keeps no lease on
     the mission and the mission is not left RUNNING: it takes its final status exactly when everything due returned,
     and a mission that a failure left RUNNING is ended.
     */
    method ProcessQueuedCandidate(i: nat, leaseOwner: Option<string>, leaseSeconds: int, developer: Work, qa: Work, ready: bool)
      returns (r: Result<()>)
      requires queue.Valid()
      modifies queue
      ensures queue.Valid() && |queue.rows| == |old(queue.rows)|
      ensures old(Accepts(i, leaseOwner, leaseSeconds)) ==>
                var row := old(queue.rows)[i];
                var left := LeftAs(true, leaseOwner, leaseSeconds, developer, qa, Running);
                && (r.Ok? <==> Succeeds(true, leaseOwner, leaseSeconds, developer, qa, ready, Running))
                && (r.Ok? ==> (developer.due ==> developer.completes) && (qa.due ==> qa.completes))
                && (r.Ok? ==> queue.now == old(queue.now) + (if developer.due then developer.ticks else 0) + if qa.due then qa.ticks else 0)
                && queue.now == old(queue.now) + TimeTaken(true, leaseOwner, leaseSeconds, developer, qa)
                && queue.rows == old(queue.rows)[i := row.(
                     status := if r.Ok? then (if ready then AwaitingApproval else Completed) else if left == Running then Abandoned else left,
                     leaseOwner := if leaseOwner.Some? then None else row.leaseOwner,
                     leaseExpiresAt := if leaseOwner.Some? then None else row.leaseExpiresAt)]
      ensures !old(Accepts(i, leaseOwner, leaseSeconds)) ==>
                && queue.rows == old(queue.rows) && queue.now == old(queue.now)
                && (r.Ok? <==> i < |queue.rows| && IsCodeChange(queue.rows[i]) && queue.rows[i].trusted
                               && queue.rows[i].status in {AwaitingApproval, Completed})
    {
      hide Runs.Replay, Apply, Succeeds, LeftAs, TimeTaken;
      if i >= |queue.rows| {
        return Err(KeyError);
      }
      if !IsCodeChange(queue.rows[i]) || !queue.rows[i].trusted {
        return Err(ValueError);
      }
      if queue.rows[i].status in {AwaitingApproval, Completed} {
        return Ok(());
      }
      r := Enter(i, leaseOwner, leaseSeconds);
      if r.Err? {
        return;
      }
      r := Prepare(i, developer, qa, ready, leaseOwner, leaseSeconds);
      if r.Err? && queue.rows[i].status == Running {
        queue.SetMissionStatus(i, Abandoned);
      }
      if leaseOwner.Some? {
        var _ := queue.ReleaseCodeChangeLease(i, leaseOwner.value);
      }
    }
  }

  class CodeChangeQueueRunner {
    const service: CodeChangeService
    const workerId: string
    const leaseSeconds: int

    constructor (service: CodeChangeService, workerId: string, leaseSeconds: int)
      ensures this.service == service && this.workerId == workerId && this.leaseSeconds == leaseSeconds
    {
      this.service, this.workerId, this.leaseSeconds := service, workerId, leaseSeconds;
    }

    /**
     One pass of a queue worker. It leaves no lease behind on the mission it claimed if and only if its worker id has no
     spaces around it and the mission names a trusted repository. Otherwise the claim is made, under the stripped id,
     but processing refuses the mission before it would release it, and the mission stays RUNNING under the lease.
     */
    method RunOnce(developer: Work, qa: Work, ready: bool) returns (claimed: Option<nat>, r: Result<()>)
      requires service.queue.Valid()
      modifies service.queue
      ensures service.queue.Valid()
      ensures claimed.None? ==> service.queue.rows == old(service.queue.rows)
      ensures claimed.Some? ==> claimed.value < |service.queue.rows| == |old(service.queue.rows)| && Available(old(service.queue.rows)[claimed.value], old(service.queue.now))
      ensures claimed.Some? && Text.Strip(workerId) == workerId && old(service.queue.rows)[claimed.value].trusted ==>
                var row := old(service.queue.rows)[claimed.value];
                var left := LeftAs(true, Some(workerId), leaseSeconds, developer, qa, Running);
                && (r.Ok? <==> Succeeds(true, Some(workerId), leaseSeconds, developer, qa, ready, Running))
                && (r.Ok? ==> (developer.due ==> developer.completes) && (qa.due ==> qa.completes))
                && service.queue.rows == old(service.queue.rows)[claimed.value := row.(
                     status := if r.Ok? then (if ready then AwaitingApproval else Completed) else if left == Running then Abandoned else left,
                     leaseOwner := None, leaseExpiresAt := None, attempts := row.attempts + 1)]
      ensures claimed.Some? && !(Text.Strip(workerId) == workerId && old(service.queue.rows)[claimed.value].trusted) ==>
                && r.Err?
                && service.queue.rows[claimed.value].leaseOwner == Some(Text.Strip(workerId))
                && service.queue.rows[claimed.value].status == Running
      ensures claimed.None? && r.Ok? ==> forall i :: 0 <= i < |service.queue.rows| ==> !Available(service.queue.rows[i], old(service.queue.now))
    {
      hide Text.Strip, Runs.Replay, Apply;
      claimed := None;
      var claim := service.queue.ClaimOldestCodeChange(workerId, leaseSeconds);
      if claim.Err? {
        return None, Err(claim.error);
      }
      claimed := claim.value;
      if claimed.None? {
        return None, Ok(());
      }
      r := service.ProcessQueuedCandidate(claimed.value, Some(workerId), leaseSeconds, developer, qa, ready);
    }
  }
}
