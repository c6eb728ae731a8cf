/** Recoverability: from any state whatsoever, reap, full reconcile and then attempts until the queue
    is empty leave every job of the lane DONE or FAILED and both lists empty. */
module Recovery {
  import opened Basics
  import opened Protocol
  import opened Safety
  import opened Attempts
  import opened WorkerCommon

  /** Nothing parked, and every open job of the lane waits on its queue. */
  ghost predicate AllWaiting(s: System, t: JobType) {
    && s.LaneOf(t).processing == []
    && forall id | id in s.db.jobs && s.db.jobs[id].kind == t && Open(s.db.jobs[id].status) ::
         Id(id) in s.LaneOf(t).queue
  }

  ghost predicate AllClosed(s: System, t: JobType) {
    forall id | id in s.db.jobs && s.db.jobs[id].kind == t :: s.db.jobs[id].status.Done? || s.db.jobs[id].status.Failed?
  }

  ghost predicate Drained(s: System, t: JobType) {
    s.LaneOf(t).queue == [] && s.LaneOf(t).processing == [] && AllClosed(s, t)
  }

  // ---------------------------------------------------------------- startup

  lemma ReverseHolds(s: seq<Raw>, x: Raw)
    ensures x in Reverse(s) <==> x in s
  {
    if s != [] {
      assert s == [s[0]] + s[1..];
      ReverseHolds(s[1..], x);
    }
  }

  lemma ReapedMoves(s: System, t: JobType, raw: Raw)
    ensures Reaped(s, t).LaneOf(t).processing == [] && Reaped(s, t).db == s.db
    ensures raw in Reaped(s, t).LaneOf(t).queue <==> raw in s.LaneOf(t).queue || raw in s.LaneOf(t).processing
  {
    var parked := s.LaneOf(t).processing;
    assert parked[..|parked|] == parked;
    ReverseHolds(parked, raw);
  }

  /** A reconcile leaves on the queue what was there and, once each, the eligible ids that were missing. */
  lemma ReconciledHolds(s: System, t: JobType, rows: seq<int>)
    ensures var lane, lane' := s.LaneOf(t), Reconciled(s, t, rows).LaneOf(t);
            var todo := Missing(rows, SeenOn(lane));
            && Reconciled(s, t, rows).db == s.db && lane'.processing == lane.processing
            && lane'.queue == lane.queue + seq(|todo|, i requires 0 <= i < |todo| => Id(todo[i]))
            && lane'.stage == lane.stage && lane'.counters == lane.counters && lane'.limit == lane.limit
  {
    PushAllIs(s.LaneOf(t), Missing(rows, SeenOn(s.LaneOf(t))));
  }

  /** Startup recovery is exact: each eligible id that was on neither list is appended exactly once, in
      the query's order, behind what was there; an id that was present is not touched; and a second
      reconcile, whatever order its query answers in, appends nothing. */
  lemma ReconcileIsExact(s: System, t: JobType, wanted: set<JobStatus>, rows: seq<int>, again: seq<int>)
    requires Enumerates(rows, Eligible(s.db, t, wanted)) && Enumerates(again, Eligible(s.db, t, wanted))
    ensures var lane, lane' := s.LaneOf(t), Reconciled(s, t, rows).LaneOf(t);
            lane.queue <= lane'.queue && lane'.processing == lane.processing
    ensures var lane, lane' := s.LaneOf(t), Reconciled(s, t, rows).LaneOf(t);
            var appended := lane'.queue[|lane.queue|..];
            && Distinct(appended)
            && (forall raw | raw in appended :: raw.Id?)
            && (forall id :: Id(id) in appended <==> id in Eligible(s.db, t, wanted) && id !in SeenOn(lane))
            && Missing(again, SeenOn(lane')) == []
            && Reconciled(Reconciled(s, t, rows), t, again) == Reconciled(s, t, rows)
  {
    var lane, after := s.LaneOf(t), Reconciled(s, t, rows);
    var todo := Missing(rows, SeenOn(lane));
    ReconciledHolds(s, t, rows);
    MissingIsPart(rows, SeenOn(lane));
    var appended := after.LaneOf(t).queue[|lane.queue|..];
    assert appended == seq(|todo|, i requires 0 <= i < |todo| => Id(todo[i]));
    forall id ensures Id(id) in appended <==> id in todo {
      if id in todo {
        var i :| 0 <= i < |todo| && todo[i] == id;
        assert appended[i] == Id(id);
      }
    }
    forall id | id in again ensures id in SeenOn(after.LaneOf(t)) {
      if id !in SeenOn(lane) {
        assert Id(id) in after.LaneOf(t).queue;
      }
    }
    NothingMissing(again, SeenOn(after.LaneOf(t)));
  }

  lemma StartupCovers(s: System, t: JobType, rows: seq<int>)
    requires Enumerates(rows, Eligible(s.db, t, UNFINISHED))
    ensures AllWaiting(Reconciled(Reaped(s, t), t, rows), t)
  {
    var reaped := Reaped(s, t);
    ReapedMoves(s, t, Garbage(""));
    ReconcileIsExact(reaped, t, UNFINISHED, rows, rows);
    ReconciledHolds(reaped, t, rows);
    var lane' := Reconciled(reaped, t, rows).LaneOf(t);
    forall id | id in s.db.jobs && s.db.jobs[id].kind == t && Open(s.db.jobs[id].status)
      ensures Id(id) in lane'.queue
    {
      if id !in SeenOn(reaped.LaneOf(t)) {
        assert Id(id) in lane'.queue[|reaped.LaneOf(t).queue|..];
      }
    }
  }

  // ---------------------------------------------------------------- draining

  /** `process` closes the job or asks for it again, and no other job changes. */
  lemma ProcessCloses(db: Db, lane: Lane, t: JobType, id: int, verdict: Verdict, tracking: Tracking)
    ensures var p := ProcessJob(db, lane, t, id, verdict, tracking);
            && p.lane.queue == lane.queue && p.lane.processing == lane.processing
            && p.db.jobs.Keys == db.jobs.Keys
            && (forall j | j in db.jobs :: p.db.jobs[j].kind == db.jobs[j].kind)
            && (forall j | j in db.jobs && j != id :: p.db.jobs[j] == db.jobs[j])
            && (id in db.jobs && Open(p.db.jobs[id].status) ==> p.again)
  {
  }

  lemma {:induction false} AttemptKeepsWaiting(s: System, t: JobType, verdict: Verdict, tracking: Tracking)
    requires AllWaiting(s, t) && s.LaneOf(t).queue != []
    ensures AllWaiting(Attempt(s, t, verdict, tracking), t)
  {
    hide ProcessJob;
    var queue := s.LaneOf(t).queue;
    var s' := Attempt(s, t, verdict, tracking);
    if queue[0].Id? { ProcessCloses(s.db, Take(s.LaneOf(t)), t, queue[0].id, verdict, tracking); }
    assert queue == [queue[0]] + queue[1..];
    assert RemoveFirst([queue[0]], queue[0]) == [];
    forall id | id in s'.db.jobs && s'.db.jobs[id].kind == t && Open(s'.db.jobs[id].status)
      ensures Id(id) in s'.LaneOf(t).queue
    {
      if queue[0] != Id(id) {
        assert Id(id) in queue[1..];
      }
    }
  }

  datatype Answer = Answer(verdict: Verdict, tracking: Tracking)

  /** `run_once` until there is nothing left, or no more answers to give. */
  function Drain(s: System, t: JobType, answers: seq<Answer>): System
    decreases |answers|
  {
    if answers == [] || s.LaneOf(t).queue == [] then s
    else Drain(Attempt(s, t, answers[0].verdict, answers[0].tracking), t, answers[1..])
  }

  /** Left alone, the entry that has k others ahead of it is the head after k calls of `run_once`, so it is
      attempted by the next one. */
  lemma {:induction false} TurnInOrder(s: System, t: JobType, answers: seq<Answer>)
    requires |answers| < |s.LaneOf(t).queue|
    ensures var queue := Drain(s, t, answers).LaneOf(t).queue;
            queue != [] && queue[0] == s.LaneOf(t).queue[|answers|]
    decreases |answers|
  {
    if answers != [] {
      AttemptShifts(s, t, answers[0].verdict, answers[0].tracking);
      hide Attempt;
      TurnInOrder(Attempt(s, t, answers[0].verdict, answers[0].tracking), t, answers[1..]);
    }
  }

  /** An attempt takes the head; whatever it adds goes behind the rest. */
  lemma AttemptShifts(s: System, t: JobType, verdict: Verdict, tracking: Tracking)
    requires s.LaneOf(t).queue != []
    ensures s.LaneOf(t).queue[1..] <= Attempt(s, t, verdict, tracking).LaneOf(t).queue
  {
    var raw := s.LaneOf(t).queue[0];
    if raw.Id? { ProcessCloses(s.db, Take(s.LaneOf(t)), t, raw.id, verdict, tracking); }
    hide ProcessJob, RemoveFirst;
  }

  lemma {:induction false} DrainEnds(s: System, t: JobType, answers: seq<Answer>)
    requires AllWaiting(s, t) && |answers| >= Measure(s, t)
    ensures Drained(Drain(s, t, answers), t)
    decreases |answers|
  {
    if s.LaneOf(t).queue != [] {
      AttemptDecreases(s, t, answers[0].verdict, answers[0].tracking);
      AttemptKeepsWaiting(s, t, answers[0].verdict, answers[0].tracking);
      DrainEnds(Attempt(s, t, answers[0].verdict, answers[0].tracking), t, answers[1..]);
    }
  }

  /** Recoverability: whatever the state of the database and of the lists, whatever order the query
      answers in and whatever the processor does, at most |queue| plus the remaining retries attempts
      after startup empty both lists and leave every job of the lane DONE or FAILED. */
  lemma Recoverable(s: System, t: JobType, rows: seq<int>, answers: seq<Answer>)
    requires Enumerates(rows, Eligible(s.db, t, UNFINISHED))
    requires |answers| >= Measure(Reconciled(Reaped(s, t), t, rows), t)
    ensures Drained(Drain(Reconciled(Reaped(s, t), t, rows), t, answers), t)
  {
    StartupCovers(s, t, rows);
    DrainEnds(Reconciled(Reaped(s, t), t, rows), t, answers);
  }

  /** With everything waiting, maintenance changes nothing, so it cannot slow a drain down. */
  lemma MaintenanceIdle(s: System, t: JobType, rows: seq<int>)
    requires AllWaiting(s, t) && Enumerates(rows, Eligible(s.db, t, {JobStatus.Queued}))
    ensures Reaped(s, t) == s && Reconciled(s, t, rows) == s
  {
    forall id | id in rows ensures id in SeenOn(s.LaneOf(t)) {
      assert Id(id) in s.LaneOf(t).queue;
    }
    NothingMissing(rows, SeenOn(s.LaneOf(t)));
    assert s.LaneOf(t).processing[..0] == [];
  }

  /** What the loop of a worker has achieved after some turns, when nobody interferes. */
  ghost predicate Draining(s: System, t: JobType, budget: nat, turns: nat) {
    AllWaiting(s, t) && (s.LaneOf(t).queue == [] || Measure(s, t) + turns <= budget)
  }

  lemma DrainingEnds(s: System, t: JobType, budget: nat, turns: nat)
    requires Draining(s, t, budget, turns) && turns >= budget
    ensures Drained(s, t)
  {
  }

  lemma DrainingGoesOn(s: System, t: JobType, budget: nat, turns: nat, verdict: Verdict, tracking: Tracking)
    requires Draining(s, t, budget, turns) && s.LaneOf(t).queue != []
    ensures Draining(Attempt(s, t, verdict, tracking), t, budget, turns + 1)
  {
    AttemptKeepsWaiting(s, t, verdict, tracking);
    AttemptDecreases(s, t, verdict, tracking);
  }
}
