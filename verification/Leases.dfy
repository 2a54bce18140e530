/**
 The lease protocol of the code-change queue (src/ai_hq/missions/service.py). Claiming, renewing and releasing are
 conditional UPDATEs that compare with a clock reading taken before them; any number of workers run at once, so
 that reading may be stale when the UPDATE is carried out, but never older than the worker's previous one.
 */
module Leases {
  import opened Prelude
  import Runs

  datatype Status = Queued | Running | AwaitingApproval | Paused | Completed | Abandoned | Cancelled

  /** `trusted`: the first objective names a trusted repository. */
  datatype Row = Row(
    status: Status, source: string, owner: string, trusted: bool,
    leaseOwner: Option<string>, leaseExpiresAt: Option<int>, attempts: nat)

  /** One successful claim with the lease as last renewed; recorded for reasoning only. */
  datatype Tenure = Tenure(worker: string, from: int, until: int, released: bool)

  datatype Track = Track(tenures: seq<Tenure>, requeued: bool)

  /** `seen` is the latest clock reading each worker has acted on. */
  datatype Store = Store(rows: seq<Row>, tracks: seq<Track>, seen: map<string, int>, now: int)

  datatype Event =
    | Tick(ticks: nat)
    | Create(source: string, owner: string, trusted: bool)
    | AssignOwner(mission: nat, owner: string)
    | SetStatus(mission: nat, status: Status)
    | Claim(mission: nat, worker: string, at: int, seconds: int)
    | Renew(mission: nat, worker: string, at: int, seconds: int)
    | Release(mission: nat, worker: string)

  const SHORTEST := 60

  function Init(now: int): Store {
    Store([], [], map[], now)
  }

  predicate IsCodeChange(r: Row) {
    r.source == "hq_chat_code_change" && r.owner == "developer"
  }

  predicate Claimable(r: Row, at: int) {
    r.status == Queued || (r.status == Running && r.leaseExpiresAt.Some? && r.leaseExpiresAt.value < at)
  }

  predicate Renewable(r: Row, worker: string, at: int) {
    && IsCodeChange(r) && r.status == Running && r.leaseOwner == Some(worker)
    && r.leaseExpiresAt.Some? && r.leaseExpiresAt.value >= at
  }

  /** A worker acts on a reading that has been made, and not before its previous one. */
  predicate Timely(s: Store, worker: string, at: int) {
    at <= s.now && (worker in s.seen ==> s.seen[worker] <= at)
  }

  predicate Admits(s: Store, e: Event)
    requires e.Claim? || e.Renew?
  {
    && e.mission < |s.rows| && e.mission < |s.tracks| && Timely(s, e.worker, e.at) && e.seconds >= SHORTEST
    && if e.Claim? then IsCodeChange(s.rows[e.mission]) && Claimable(s.rows[e.mission], e.at)
       else Renewable(s.rows[e.mission], e.worker, e.at)
  }

  function Claimed(r: Row, worker: string, until: int): Row {
    r.(status := Running, leaseOwner := Some(worker), leaseExpiresAt := Some(until), attempts := r.attempts + 1)
  }

  /** The track with its last tenure changed. */
  function Amend(t: Track, tenure: Tenure): Track
    requires t.tenures != []
  {
    t.(tenures := t.tenures[|t.tenures| - 1 := tenure])
  }

  function Last(t: Track): Tenure
    requires t.tenures != []
  {
    t.tenures[|t.tenures| - 1]
  }

  function Put(s: Store, i: nat, r: Row, t: Track): Store
    requires i < |s.rows| && i < |s.tracks|
  {
    s.(rows := s.rows[i := r], tracks := s.tracks[i := t])
  }

  function Apply(s: Store, e: Event): Store {
    match e
    case Tick(ticks) => s.(now := s.now + ticks)
    case Create(source, owner, trusted) =>
      s.(rows := s.rows + [Row(Queued, source, owner, trusted, None, None, 0)], tracks := s.tracks + [Track([], false)])
    case AssignOwner(i, owner) =>
      if i < |s.rows| && s.rows[i].status == Queued then s.(rows := s.rows[i := s.rows[i].(owner := owner)]) else s
    case SetStatus(i, status) =>
      if i < |s.rows| && i < |s.tracks|
      then Put(s, i, s.rows[i].(status := status), s.tracks[i].(requeued := s.tracks[i].requeued || status == Queued))
      else s
    case Claim(i, worker, at, seconds) =>
      if !Admits(s, e) then s
      else
        var until := at + seconds * SECOND;
        Put(s, i, Claimed(s.rows[i], worker, until),
            s.tracks[i].(tenures := s.tracks[i].tenures + [Tenure(worker, at, until, false)])).(seen := s.seen[worker := at])
    case Renew(i, worker, at, seconds) =>
      if !Admits(s, e) then s
      else
        var until := at + seconds * SECOND;
        Put(s, i, s.rows[i].(leaseExpiresAt := Some(until)),
            if s.tracks[i].tenures == [] then s.tracks[i] else Amend(s.tracks[i], Last(s.tracks[i]).(until := until)))
        .(seen := s.seen[worker := at])
    case Release(i, worker) =>
      if i < |s.rows| && i < |s.tracks| && s.rows[i].leaseOwner == Some(worker)
      then Put(s, i, s.rows[i].(leaseOwner := None, leaseExpiresAt := None),
               if s.tracks[i].tenures == [] then s.tracks[i] else Amend(s.tracks[i], Last(s.tracks[i]).(released := true)))
      else s
  }

  // ---------- what every run keeps ----------

  predicate TenureSound(t: Tenure, seen: map<string, int>) {
    t.from + SHORTEST * SECOND <= t.until && t.worker in seen && t.from <= seen[t.worker]
  }

  /** The row holds exactly the lease of its last tenure, and counts the tenures. */
  predicate RowSound(r: Row, t: Track) {
    && r.attempts == |t.tenures|
    && if t.tenures == [] || Last(t).released then r.leaseOwner == None && r.leaseExpiresAt == None
       else r.leaseOwner == Some(Last(t).worker) && r.leaseExpiresAt == Some(Last(t).until)
  }

  /** Every tenure ended before the next one began. */
  predicate Disjoint(tenures: seq<Tenure>) {
    forall j, k :: 0 <= j < k < |tenures| ==> tenures[j].until < tenures[k].from
  }

  predicate TrackSound(r: Row, t: Track, seen: map<string, int>) {
    && RowSound(r, t)
    && (forall j :: 0 <= j < |t.tenures| ==> TenureSound(t.tenures[j], seen))
    && (!t.requeued ==> Disjoint(t.tenures) && (r.status == Queued ==> t.tenures == []))
  }

  ghost predicate Inv(s: Store) {
    && |s.rows| == |s.tracks|
    && (forall w :: w in s.seen ==> s.seen[w] <= s.now)
    && (forall i :: 0 <= i < |s.rows| ==> TrackSound(s.rows[i], s.tracks[i], s.seen))
  }

  predicate SeenGrown(seen: map<string, int>, seen': map<string, int>) {
    forall w :: w in seen ==> w in seen' && seen[w] <= seen'[w]
  }

  lemma PutKeeps(s: Store, i: nat, r: Row, t: Track, seen: map<string, int>)
    requires Inv(s) && i < |s.rows| && SeenGrown(s.seen, seen)
    requires forall w :: w in seen ==> seen[w] <= s.now
    requires TrackSound(r, t, seen)
    ensures Inv(Put(s, i, r, t).(seen := seen))
  {
  }

  lemma ClaimKeeps(s: Store, e: Event)
    requires Inv(s) && e.Claim? && Admits(s, e)
    ensures Inv(Apply(s, e))
  {
    var r, t := s.rows[e.mission], s.tracks[e.mission];
    assert TrackSound(r, t, s.seen);
    var until := e.at + e.seconds * SECOND;
    var seen := s.seen[e.worker := e.at];
    var added := Tenure(e.worker, e.at, until, false);
    var t' := t.(tenures := t.tenures + [added]);
    forall j | 0 <= j < |t'.tenures|
      ensures TenureSound(t'.tenures[j], seen)
    {
      if j < |t.tenures| {
        assert TenureSound(t.tenures[j], s.seen);
      }
    }
    if !t.requeued {
      forall j, k | 0 <= j < k < |t'.tenures|
        ensures t'.tenures[j].until < t'.tenures[k].from
      {
        if k == |t.tenures| {
          EndsBeforeLast(t.tenures, j, s.seen);
        }
      }
    }
    PutKeeps(s, e.mission, Claimed(r, e.worker, until), t', seen);
  }

  /** No tenure outlasts the last one. */
  lemma EndsBeforeLast(tenures: seq<Tenure>, j: nat, seen: map<string, int>)
    requires Disjoint(tenures) && j < |tenures| && forall k :: 0 <= k < |tenures| ==> TenureSound(tenures[k], seen)
    ensures tenures[j].until <= tenures[|tenures| - 1].until
  {
  }

  lemma RenewKeeps(s: Store, e: Event)
    requires Inv(s) && e.Renew? && Admits(s, e)
    ensures Inv(Apply(s, e))
  {
  }

  lemma ReleaseKeeps(s: Store, i: nat, worker: string)
    requires Inv(s) && i < |s.rows| && s.rows[i].leaseOwner == Some(worker)
    ensures Inv(Apply(s, Release(i, worker)))
  {
  }

  lemma StatusKeeps(s: Store, i: nat, status: Status)
    requires Inv(s) && i < |s.rows|
    ensures Inv(Apply(s, SetStatus(i, status)))
  {
  }

  lemma StepKeeps(s: Store, e: Event)
    requires Inv(s)
    ensures Inv(Apply(s, e))
  {
    hide TrackSound;
    match e
    case Claim(_, _, _, _) => if Admits(s, e) { ClaimKeeps(s, e); }
    case Renew(_, _, _, _) => if Admits(s, e) { RenewKeeps(s, e); }
    case Release(i, worker) => if i < |s.rows| && s.rows[i].leaseOwner == Some(worker) { ReleaseKeeps(s, i, worker); }
    case SetStatus(i, status) => if i < |s.rows| { StatusKeeps(s, i, status); }
    case AssignOwner(i, owner) => AssignKeeps(s, i, owner);
    case Create(source, owner, trusted) => CreateKeeps(s, source, owner, trusted);
    case Tick(_) =>
  }

  lemma AssignKeeps(s: Store, i: nat, owner: string)
    requires Inv(s)
    ensures Inv(Apply(s, AssignOwner(i, owner)))
  {
  }

  lemma CreateKeeps(s: Store, source: string, owner: string, trusted: bool)
    requires Inv(s)
    ensures Inv(Apply(s, Create(source, owner, trusted)))
  {
  }

  lemma RunKeeps(now: int, es: seq<Event>)
    ensures Inv(Runs.Replay(Apply, Init(now), es))
  {
    forall s, e | Inv(s)
      ensures Inv(Apply(s, e))
    {
      StepKeeps(s, e);
    }
    Runs.Invariant(Apply, Inv, Init(now), es);
  }

  // ---------- main results ----------

  /** The mission's latest lease has neither run out nor been released. */
  predicate Held(s: Store, i: nat) {
    && i < |s.tracks| && s.tracks[i].tenures != []
    && !Last(s.tracks[i]).released && Last(s.tracks[i]).until >= s.now
  }

  /**
   In every run, while the latest lease of a mission is held, a claim of it succeeds exactly when the mission has been
   put back in the queue; with no requeue, no claim by anyone succeeds, however old the claimer's clock reading is.
   */
  lemma HeldExcludesClaims(now: int, es: seq<Event>, e: Event)
    requires e.Claim? && Held(Runs.Replay(Apply, Init(now), es), e.mission)
    ensures var s := Runs.Replay(Apply, Init(now), es);
            && |s.rows| == |s.tracks|
            && (Admits(s, e) <==>
                  s.rows[e.mission].status == Queued && IsCodeChange(s.rows[e.mission])
                  && Timely(s, e.worker, e.at) && e.seconds >= SHORTEST)
            && (!s.tracks[e.mission].requeued ==> Apply(s, e) == s)
  {
    RunKeeps(now, es);
    var s := Runs.Replay(Apply, Init(now), es);
    assert TrackSound(s.rows[e.mission], s.tracks[e.mission], s.seen);
  }

  /**
   In every run, a queued code-change mission can be claimed, and a RUNNING one exactly when its latest lease was
   neither released nor extended up to the claimer's reading; the claimer then holds it for the seconds asked for. So
   a mission whose worker died is taken over, while one that was released RUNNING is not claimed again unless it is requeued.
   */
  lemma ClaimsExactly(now: int, es: seq<Event>, i: nat, worker: string, at: int, seconds: int)
    requires i < |Runs.Replay(Apply, Init(now), es).rows|
    ensures var s := Runs.Replay(Apply, Init(now), es);
            var e := Claim(i, worker, at, seconds);
            |s.rows| == |s.tracks|
            && var r, tenures := s.rows[i], s.tracks[i].tenures;
            && (Admits(s, e) <==>
                  && r.source == "hq_chat_code_change" && r.owner == "developer" && seconds >= 60
                  && at <= s.now && (worker in s.seen ==> s.seen[worker] <= at)
                  && (r.status == Queued
                      || (r.status == Running && tenures != []
                          && !tenures[|tenures| - 1].released && tenures[|tenures| - 1].until < at)))
            && (!Admits(s, e) ==> Apply(s, e) == s)
            && (Admits(s, e) ==>
                  && Apply(s, e).rows == s.rows[i := Row(Running, r.source, r.owner, r.trusted, Some(worker),
                                                         Some(at + seconds * 1_000_000), r.attempts + 1)]
                  && |Apply(s, e).tracks| == |s.tracks|
                  && Apply(s, e).tracks[i].tenures == tenures + [Tenure(worker, at, at + seconds * 1_000_000, false)])
  {
    RunKeeps(now, es);
    var s := Runs.Replay(Apply, Init(now), es);
    assert TrackSound(s.rows[i], s.tracks[i], s.seen);
  }

  /** In every run, a lease is renewed exactly by the worker of the latest claim, unreleased and not after it ran out. */
  lemma RenewsExactly(now: int, es: seq<Event>, i: nat, worker: string, at: int, seconds: int)
    requires i < |Runs.Replay(Apply, Init(now), es).rows|
    ensures var s := Runs.Replay(Apply, Init(now), es);
            var e := Renew(i, worker, at, seconds);
            |s.rows| == |s.tracks|
            && var r, tenures := s.rows[i], s.tracks[i].tenures;
            && (Admits(s, e) <==>
                  && r.source == "hq_chat_code_change" && r.owner == "developer" && r.status == Running && seconds >= 60
                  && at <= s.now && (worker in s.seen ==> s.seen[worker] <= at)
                  && tenures != [] && tenures[|tenures| - 1].worker == worker
                  && !tenures[|tenures| - 1].released && tenures[|tenures| - 1].until >= at)
            && (!Admits(s, e) ==> Apply(s, e) == s)
            && (Admits(s, e) ==>
                  && Apply(s, e).rows == s.rows[i := r.(leaseExpiresAt := Some(at + seconds * 1_000_000))]
                  && |Apply(s, e).tracks| == |s.tracks|
                  && Apply(s, e).tracks[i].tenures
                     == tenures[..|tenures| - 1] + [tenures[|tenures| - 1].(until := at + seconds * 1_000_000)])
  {
    RunKeeps(now, es);
    var s := Runs.Replay(Apply, Init(now), es);
    assert TrackSound(s.rows[i], s.tracks[i], s.seen);
  }

  /** A mission gets another owner only while it is queued; its source and its repository never change. */
  lemma OwnersAreAssignedInQueue(s: Store, e: Event, i: nat)
    requires i < |s.rows|
    ensures var r, t := s.rows[i], Apply(s, e);
            && i < |t.rows| && t.rows[i].source == r.source && t.rows[i].trusted == r.trusted
            && t.rows[i].owner == if e.AssignOwner? && e.mission == i && r.status == Queued then e.owner else r.owner
  {
  }

  /** The event puts mission i back in the queue. */
  ghost predicate Requeues(now: int, es: seq<Event>, i: nat, k: nat) {
    k < |es| && es[k] == SetStatus(i, Queued) && i < |Runs.Replay(Apply, Init(now), es[..k]).rows|
  }

  lemma RequeueStep(s: Store, e: Event, i: nat)
    requires Inv(s) && i < |Apply(s, e).tracks|
    ensures Apply(s, e).tracks[i].requeued <==>
            (i < |s.rows| && e == SetStatus(i, Queued)) || (i < |s.tracks| && s.tracks[i].requeued)
  {
    hide TrackSound;
  }

  /** Rows are never removed. */
  lemma {:induction false} NotYet(now: int, es: seq<Event>, i: nat, k: nat)
    requires i >= |Runs.Replay(Apply, Init(now), es).rows| && k <= |es|
    ensures i >= |Runs.Replay(Apply, Init(now), es[..k]).rows|
    decreases |es|
  {
    if k < |es| {
      var front := es[..|es| - 1];
      NeverFewer(Runs.Replay(Apply, Init(now), front), es[|es| - 1]);
      NotYet(now, front, i, k);
      assert es[..k] == front[..k];
    } else {
      assert es[..k] == es;
    }
  }

  lemma NeverFewer(s: Store, e: Event)
    ensures |Apply(s, e).rows| >= |s.rows|
  {
  }

  /** In every run, a mission counts as requeued exactly if some event of the run put it back in the queue. */
  lemma {:induction false} RequeuedMeans(now: int, es: seq<Event>, i: nat)
    requires i < |Runs.Replay(Apply, Init(now), es).tracks|
    ensures Runs.Replay(Apply, Init(now), es).tracks[i].requeued <==> exists k: nat :: Requeues(now, es, i, k)
    decreases |es|
  {
    hide Apply, Inv;
    if es != [] {
      var front, e := es[..|es| - 1], es[|es| - 1];
      var s := Runs.Replay(Apply, Init(now), front);
      RunKeeps(now, front);
      RequeueStep(s, e, i);
      assert forall k: nat :: k < |front| ==> es[..k] == front[..k];
      assert Requeues(now, es, i, |front|) <==> i < |s.rows| && e == SetStatus(i, Queued);
      assert forall k: nat :: Requeues(now, es, i, k) <==> Requeues(now, front, i, k) || (k == |front| && Requeues(now, es, i, k));
      if i < |s.tracks| {
        RequeuedMeans(now, front, i);
      } else {
        forall k: nat | k < |front|
          ensures !Requeues(now, front, i, k)
        {
          NotYet(now, front, i, k);
        }
      }
    }
  }

  /** In every run without requeue, the intervals granted by successive claims of a mission never overlap. */
  lemma GrantsNeverOverlap(now: int, es: seq<Event>, i: nat, j: nat, k: nat)
    requires var s := Runs.Replay(Apply, Init(now), es);
             i < |s.tracks| && !s.tracks[i].requeued && j < k < |s.tracks[i].tenures|
    ensures var tenures := Runs.Replay(Apply, Init(now), es).tracks[i].tenures;
            tenures[j].from < tenures[j].until < tenures[k].from < tenures[k].until
  {
    RunKeeps(now, es);
    var s := Runs.Replay(Apply, Init(now), es);
    assert TrackSound(s.rows[i], s.tracks[i], s.seen);
    assert TenureSound(s.tracks[i].tenures[j], s.seen) && TenureSound(s.tracks[i].tenures[k], s.seen);
  }

  lemma {:induction false} FromsSpread(tenures: seq<Tenure>, seen: map<string, int>, k: nat)
    requires Disjoint(tenures) && k < |tenures| && forall j :: 0 <= j < |tenures| ==> TenureSound(tenures[j], seen)
    ensures tenures[0].from + k * (SHORTEST * SECOND) <= tenures[k].from
    ensures k > 0 ==> tenures[0].from + k * (SHORTEST * SECOND) < tenures[k].from
  {
    if k > 0 {
      FromsSpread(tenures, seen, k - 1);
      assert TenureSound(tenures[k - 1], seen);
      assert tenures[k - 1].until < tenures[k].from;
    }
  }

  /**
   In every run, the attempt counter is the number of successful claims; without requeue it is bounded by the time
   since the first claim, whatever renewals happened: (attempts - 1) minutes have passed since then.
   */
  lemma AttemptsAreBoundedByTime(now: int, es: seq<Event>, i: nat)
    requires i < |Runs.Replay(Apply, Init(now), es).rows|
    ensures var s := Runs.Replay(Apply, Init(now), es);
            && i < |s.tracks| && s.rows[i].attempts == |s.tracks[i].tenures|
            && (!s.tracks[i].requeued && s.rows[i].attempts > 0 ==>
                  (s.rows[i].attempts - 1) * (SHORTEST * SECOND) <= s.now - s.tracks[i].tenures[0].from)
  {
    RunKeeps(now, es);
    var s := Runs.Replay(Apply, Init(now), es);
    var t := s.tracks[i];
    assert TrackSound(s.rows[i], t, s.seen);
    if !t.requeued && t.tenures != [] {
      FromsSpread(t.tenures, s.seen, |t.tenures| - 1);
      assert TenureSound(Last(t), s.seen);
    }
  }

  /** Putting a running mission back in the queue lets two workers hold it at once. */
  lemma RequeueBreaksExclusion()
    ensures var s := Runs.Replay(Apply, Init(0), [Create("hq_chat_code_change", "developer", true), Claim(0, "a", 0, 900),
                                                  SetStatus(0, Queued), Claim(0, "b", 0, 900)]);
            |s.tracks| == 1
            && s.tracks[0].tenures == [Tenure("a", 0, 900 * SECOND, false), Tenure("b", 0, 900 * SECOND, false)]
  {
    hide Runs.Replay;
    var create, a, requeue, b :=
      Create("hq_chat_code_change", "developer", true), Claim(0, "a", 0, 900), SetStatus(0, Queued), Claim(0, "b", 0, 900);
    Runs.Four(Apply, Init(0), create, a, requeue, b);
    var s1 := Apply(Init(0), create);
    var s2 := Apply(s1, a);
    assert s2.tracks[0].tenures == [Tenure("a", 0, 900 * SECOND, false)] && s2.seen == map["a" := 0] && |s2.rows| == 1;
    var s3 := Apply(s2, requeue);
    assert s3.tracks[0].tenures == s2.tracks[0].tenures;
  }
}
