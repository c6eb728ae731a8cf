/** What one attempt does when nothing interferes, said in one piece: the reference that the workers'
    step-by-step code is proved against, and the measure that makes draining terminate. */
module Attempts {
  import opened Basics
  import opened Protocol

  /** The effect of `process`: the rows and counters afterwards, and whether to push the id again. */
  datatype Processed = Processed(db: Db, lane: Lane, again: bool)

  function Settle(db: Db, id: int, key: Key, js: JobStatus, s: AssetStatus, path: Option<string>, lane: Lane): Processed
    requires id in db.jobs && key in db.assets
  {
    Processed(WriteRows(db, id, key, js, s, path), lane, js.Queued?)
  }

  /** Whether the exception goes through the retry counter, or fails the job at once. */
  predicate FailsFast(t: JobType, verdict: Verdict) {
    t.Audio? && verdict.RaisedUnsupportedLanguage?
  }

  function ProcessJob(db: Db, lane: Lane, t: JobType, id: int, verdict: Verdict, tracking: Tracking): Processed {
    if id !in db.jobs || db.jobs[id].status.Done? then Processed(db, lane, false)
    else
      var key := Key(t, db.jobs[id].ref);
      if key !in db.assets then
        Processed(db.(jobs := db.jobs[id := db.jobs[id].(status := JobStatus.Failed)]), lane, false)
      else
        var started := lane.(log := lane.log.(runs := Bump(lane.log.runs, id)));
        var path := db.assets[key].path;
        if verdict.Produced? then
          Settle(db, id, key, JobStatus.Done, AssetStatus.Done, Some(verdict.path), started)
        else if FailsFast(t, verdict) || tracking.NotCounted? then
          Settle(db, id, key, JobStatus.Failed, AssetStatus.Failed, path, started)
        else
          var counted := started.(counters := Bump(lane.counters, id));
          if tracking.Counted? && counted.counters[id] <= lane.limit then
            Settle(db, id, key, JobStatus.Queued, AssetStatus.Pending, path, counted)
          else
            Settle(db, id, key, JobStatus.Failed, AssetStatus.Failed, path, counted)
  }

  /** One `run_once` on a non-empty queue: take the head, process it, push it again if it is to be
      retried, and drop the copy on the processing list. */
  function Attempt(s: System, t: JobType, verdict: Verdict, tracking: Tracking): System
    requires s.LaneOf(t).queue != []
  {
    var raw := s.LaneOf(t).queue[0];
    var taken := Take(s.LaneOf(t));
    var p := if raw.Id? then ProcessJob(s.db, taken, t, raw.id, verdict, tracking) else Processed(s.db, taken, false);
    var lane := if p.again then PushAgain(p.lane, raw.id) else p.lane;
    s.With(t, p.db, lane.(processing := RemoveFirst(lane.processing, raw)))
  }

  function PushAgain(lane: Lane, id: int): Lane {
    var pushed := PushBack(lane, Id(id));
    pushed.(log := pushed.log.(retries := Bump(pushed.log.retries, id)))
  }

  // ---------------------------------------------------------------- what an attempt leaves

  predicate OnlyRowsOf(before: Db, after: Db, id: int, key: Key) {
    && after.jobs.Keys == before.jobs.Keys && after.assets.Keys == before.assets.Keys && after.poems == before.poems
    && (forall other | other in before.jobs && other != id :: after.jobs[other] == before.jobs[other])
    && forall other | other in before.assets && other != key :: after.assets[other] == before.assets[other]
  }

  /** An attempt that runs its job, case by case: DONE with the path that the processor returned; retried with
      a new copy at the tail exactly if the exception is counted within the limit; else FAILED, at once and
      uncounted for a language the synthesizer does not support. */
  lemma AttemptRuns(s: System, t: JobType, id: int, verdict: Verdict, tracking: Tracking)
    requires s.LaneOf(t).queue != [] && s.LaneOf(t).queue[0] == Id(id)
    requires id in s.db.jobs && !s.db.jobs[id].status.Done? && Key(t, s.db.jobs[id].ref) in s.db.assets
    ensures var s', key := Attempt(s, t, verdict, tracking), Key(t, s.db.jobs[id].ref);
            var lane, lane', job, asset := s.LaneOf(t), s'.LaneOf(t), s'.db.jobs[id].status, s'.db.assets[key];
            var count, path := Count(lane.counters, id), s.db.assets[key].path;
            var fast := t.Audio? && verdict.RaisedUnsupportedLanguage?;
            && OnlyRowsOf(s.db, s'.db, id, key) && s'.db.jobs[id].ref == s.db.jobs[id].ref
            && s'.db.jobs[id].kind == s.db.jobs[id].kind && asset.poem == s.db.assets[key].poem
            && Count(lane'.log.runs, id) == Count(lane.log.runs, id) + 1
            && (verdict.Produced? ==>
                  && job.Done? && asset.status.Done? && asset.path == Some(verdict.path)
                  && lane'.queue == lane.queue[1..] && lane'.counters == lane.counters)
            && (!verdict.Produced? && (fast || tracking.NotCounted?) ==>
                  && job.Failed? && asset.status.Failed? && asset.path == path
                  && lane'.queue == lane.queue[1..] && lane'.counters == lane.counters)
            && (!verdict.Produced? && !fast && !tracking.NotCounted? ==>
                  && asset.path == path && lane'.counters == lane.counters[id := count + 1]
                  && if tracking.Counted? && count + 1 <= lane.limit then
                       job.Queued? && asset.status.Pending? && lane'.queue == lane.queue[1..] + [Id(id)]
                     else job.Failed? && asset.status.Failed? && lane'.queue == lane.queue[1..])
  {
  }

  /** An entry that has nothing to run is dropped: garbage, a job that is gone or DONE, or one without its asset,
      which is failed. */
  lemma AttemptDrops(s: System, t: JobType, verdict: Verdict, tracking: Tracking)
    requires s.LaneOf(t).queue != []
    ensures var s', raw := Attempt(s, t, verdict, tracking), s.LaneOf(t).queue[0];
            var lane, lane' := s.LaneOf(t), s'.LaneOf(t);
            && (raw.Garbage? || raw.id !in s.db.jobs || s.db.jobs[raw.id].status.Done? ==> s'.db == s.db)
            && (raw.Id? && raw.id in s.db.jobs && !s.db.jobs[raw.id].status.Done?
                && Key(t, s.db.jobs[raw.id].ref) !in s.db.assets ==>
                  s'.db == s.db.(jobs := s.db.jobs[raw.id := s.db.jobs[raw.id].(status := JobStatus.Failed)]))
            && (raw.Garbage? || raw.id !in s.db.jobs || s.db.jobs[raw.id].status.Done?
                || Key(t, s.db.jobs[raw.id].ref) !in s.db.assets ==>
                  lane'.queue == lane.queue[1..] && lane'.counters == lane.counters && lane'.log.runs == lane.log.runs)
  {
  }

  // ---------------------------------------------------------------- the steps add up

  /** Where `process` leaves the worker. */
  function AfterProcess(s: System, t: JobType, id: int, p: Processed): System {
    s.With(t, p.db, p.lane.(stage := if p.again then Requeueing(id) else Acking(Id(id))))
  }

  /** The job is gone or DONE: one read. */
  lemma SkipsAddUp(s: System, t: JobType, id: int, verdict: Verdict, tracking: Tracking)
    requires s.LaneOf(t).stage == Popped(id)
    requires id !in s.db.jobs || s.db.jobs[id].status.Done?
    ensures var p := ProcessJob(s.db, s.LaneOf(t), t, id, verdict, tracking);
            Step(s, Work(t, ReadJob)) == AfterProcess(s, t, id, p) && !p.again
  {
  }

  ghost function Loaded(s: System, t: JobType): System {
    Step(Step(s, Work(t, ReadJob)), Work(t, ReadAsset))
  }

  lemma ReadsWriteNothing(s: System, t: JobType)
    ensures Step(s, Work(t, ReadJob)).db == s.db && Loaded(s, t).db == s.db
  {
  }

  lemma MissingAddsUp(s: System, t: JobType, id: int, verdict: Verdict, tracking: Tracking)
    requires s.LaneOf(t).stage == Popped(id) && id in s.db.jobs && !s.db.jobs[id].status.Done?
    requires Key(t, s.db.jobs[id].ref) !in s.db.assets
    ensures var p := ProcessJob(s.db, s.LaneOf(t), t, id, verdict, tracking);
            && Step(Loaded(s, t), Work(t, CommitOutcome)) == AfterProcess(s, t, id, p) && !p.again
            && !Step(Loaded(s, t), Work(t, CommitOutcome)).LaneOf(t).stage.Idle?
  {
  }

  /** From the processor's start to the second commit. */
  ghost function Rendered(s: System, t: JobType, verdict: Verdict, tracking: Tracking): System {
    var answered := Step(s, Work(t, WorkerStep.Process(verdict)));
    Step(if verdict.Produced? || FailsFast(t, verdict) then answered else Step(answered, Work(t, Track(tracking))),
         Work(t, CommitOutcome))
  }

  ghost function Answered(s: System, t: JobType, verdict: Verdict): System {
    Step(Step(Loaded(s, t), Work(t, CommitRunning)), Work(t, WorkerStep.Process(verdict)))
  }

  lemma StartsUp(s: System, t: JobType, id: int)
    requires s.LaneOf(t).stage == Popped(id) && id in s.db.jobs && !s.db.jobs[id].status.Done?
    requires Key(t, s.db.jobs[id].ref) in s.db.assets
    ensures Step(Loaded(s, t), Work(t, CommitRunning)).LaneOf(t).stage == Processing(id, s.db.jobs[id].ref)
  {
  }

  /** Up to the processor's answer, only the statuses moved. */
  lemma AnsweredIs(s: System, t: JobType, id: int, verdict: Verdict)
    requires s.LaneOf(t).stage == Popped(id) && id in s.db.jobs && !s.db.jobs[id].status.Done?
    requires Key(t, s.db.jobs[id].ref) in s.db.assets
    ensures var ref := s.db.jobs[id].ref;
            var key := Key(t, ref);
            var lane := s.LaneOf(t);
            Answered(s, t, verdict) ==
              s.With(t, WriteRows(s.db, id, key, JobStatus.Running, AssetStatus.Running, s.db.assets[key].path),
                     lane.(log := lane.log.(runs := Bump(lane.log.runs, id)),
                           stage := if verdict.Produced? then Resolved(id, ref, Finished(verdict.path))
                                    else if FailsFast(t, verdict) then Resolved(id, ref, GiveUp)
                                    else Booking(id, ref)))
  {
  }

  lemma WriteTwice(db: Db, id: int, key: Key, a: JobStatus, b: AssetStatus, p: Option<string>,
                   c: JobStatus, d: AssetStatus, q: Option<string>)
    requires id in db.jobs && key in db.assets
    ensures WriteRows(WriteRows(db, id, key, a, b, p), id, key, c, d, q) == WriteRows(db, id, key, c, d, q)
  {
    var twice, once := WriteRows(WriteRows(db, id, key, a, b, p), id, key, c, d, q), WriteRows(db, id, key, c, d, q);
    assert twice.jobs == once.jobs;
    assert twice.assets == once.assets;
  }

  lemma AnswerAddsUp(s: System, t: JobType, id: int, verdict: Verdict, tracking: Tracking)
    requires s.LaneOf(t).stage == Popped(id) && id in s.db.jobs && !s.db.jobs[id].status.Done?
    requires Key(t, s.db.jobs[id].ref) in s.db.assets
    requires verdict.Produced? || FailsFast(t, verdict)
    ensures Step(Answered(s, t, verdict), Work(t, CommitOutcome))
            == AfterProcess(s, t, id, ProcessJob(s.db, s.LaneOf(t), t, id, verdict, tracking))
    ensures !AfterProcess(s, t, id, ProcessJob(s.db, s.LaneOf(t), t, id, verdict, tracking)).LaneOf(t).stage.Idle?
  {
    hide Answered;
    AnsweredIs(s, t, id, verdict);
    var key := Key(t, s.db.jobs[id].ref);
    var path := s.db.assets[key].path;
    if verdict.Produced? {
      WriteTwice(s.db, id, key, JobStatus.Running, AssetStatus.Running, path,
                 JobStatus.Done, AssetStatus.Done, Some(verdict.path));
    } else {
      WriteTwice(s.db, id, key, JobStatus.Running, AssetStatus.Running, path,
                 JobStatus.Failed, AssetStatus.Failed, path);
    }
  }

  lemma TrackingAddsUp(s: System, t: JobType, id: int, verdict: Verdict, tracking: Tracking)
    requires s.LaneOf(t).stage == Popped(id) && id in s.db.jobs && !s.db.jobs[id].status.Done?
    requires Key(t, s.db.jobs[id].ref) in s.db.assets
    requires !verdict.Produced? && !FailsFast(t, verdict)
    ensures Step(Step(Answered(s, t, verdict), Work(t, Track(tracking))), Work(t, CommitOutcome))
            == AfterProcess(s, t, id, ProcessJob(s.db, s.LaneOf(t), t, id, verdict, tracking))
    ensures !AfterProcess(s, t, id, ProcessJob(s.db, s.LaneOf(t), t, id, verdict, tracking)).LaneOf(t).stage.Idle?
  {
    hide Answered;
    AnsweredIs(s, t, id, verdict);
    var key := Key(t, s.db.jobs[id].ref);
    var path := s.db.assets[key].path;
    WriteTwice(s.db, id, key, JobStatus.Running, AssetStatus.Running, path, JobStatus.Failed, AssetStatus.Failed, path);
    WriteTwice(s.db, id, key, JobStatus.Running, AssetStatus.Running, path,
               JobStatus.Queued, AssetStatus.Pending, path);
  }

  /** All the steps of an attempt that finds its job and its asset. */
  lemma {:induction false} AttemptAddsUp(s: System, t: JobType, id: int, verdict: Verdict, tracking: Tracking)
    requires s.LaneOf(t).stage == Popped(id) && id in s.db.jobs && !s.db.jobs[id].status.Done?
    requires Key(t, s.db.jobs[id].ref) in s.db.assets
    ensures var p := ProcessJob(s.db, s.LaneOf(t), t, id, verdict, tracking);
            var end := Rendered(Step(Loaded(s, t), Work(t, CommitRunning)), t, verdict, tracking);
            end == AfterProcess(s, t, id, p) && (p.again <==> end.LaneOf(t).stage.Requeueing?)
              && !end.LaneOf(t).stage.Idle?
  {
    if verdict.Produced? || FailsFast(t, verdict) { AnswerAddsUp(s, t, id, verdict, tracking); }
    else { TrackingAddsUp(s, t, id, verdict, tracking); }
  }

  lemma ProcessIgnoresStage(db: Db, lane: Lane, t: JobType, id: int, verdict: Verdict, tracking: Tracking, stage: Stage)
    ensures var p := ProcessJob(db, lane, t, id, verdict, tracking);
            ProcessJob(db, lane.(stage := stage), t, id, verdict, tracking) == p.(lane := p.lane.(stage := stage))
  {
  }

  /** From an entry in hand to its ack, when nobody interferes. */
  function Handled(s: System, t: JobType, raw: Raw, verdict: Verdict, tracking: Tracking): System {
    if raw.Garbage? then Step(s, Work(t, Ack))
    else
      var p := ProcessJob(s.db, s.LaneOf(t), t, raw.id, verdict, tracking);
      var done := AfterProcess(s, t, raw.id, p);
      Step(if p.again then Step(done, Work(t, PushRetry)) else done, Work(t, Ack))
  }

  lemma GarbageAddsUp(s: System, t: JobType, verdict: Verdict, tracking: Tracking)
    requires s.LaneOf(t).stage.Idle? && s.LaneOf(t).queue != [] && s.LaneOf(t).queue[0].Garbage?
    ensures Handled(Step(s, Work(t, Pop)), t, s.LaneOf(t).queue[0], verdict, tracking)
            == Attempt(s, t, verdict, tracking)
  {
  }

  lemma ProcessKeepsStage(db: Db, lane: Lane, t: JobType, id: int, verdict: Verdict, tracking: Tracking)
    ensures ProcessJob(db, lane, t, id, verdict, tracking).lane.stage == lane.stage
  {
  }

  /** Pop, `process`, the push if it is asked for, and the ack make one attempt. */
  lemma RunOnceAddsUp(s: System, t: JobType, id: int, verdict: Verdict, tracking: Tracking)
    requires s.LaneOf(t).stage.Idle? && s.LaneOf(t).queue != [] && s.LaneOf(t).queue[0] == Id(id)
    ensures Handled(Step(s, Work(t, Pop)), t, Id(id), verdict, tracking) == Attempt(s, t, verdict, tracking)
  {
    hide ProcessJob;
    ProcessIgnoresStage(s.db, Take(s.LaneOf(t)), t, id, verdict, tracking, Popped(id));
    ProcessKeepsStage(s.db, Take(s.LaneOf(t)), t, id, verdict, tracking);
  }

  lemma HandledAddsUp(s: System, t: JobType, verdict: Verdict, tracking: Tracking)
    requires s.LaneOf(t).stage.Idle? && s.LaneOf(t).queue != []
    ensures Handled(Step(s, Work(t, Pop)), t, s.LaneOf(t).queue[0], verdict, tracking)
            == Attempt(s, t, verdict, tracking)
  {
    hide Handled, Attempt, Step;
    if s.LaneOf(t).queue[0].Garbage? { GarbageAddsUp(s, t, verdict, tracking); }
    else { RunOnceAddsUp(s, t, s.LaneOf(t).queue[0].id, verdict, tracking); }
  }

  // ---------------------------------------------------------------- the measure

  function Budget(lane: Lane, id: int): nat {
    if lane.limit > Count(lane.counters, id) then lane.limit - Count(lane.counters, id) else 0
  }

  /** The retries still allowed, summed over a set of jobs. */
  ghost function Budgets(lane: Lane, ids: set<int>): nat {
    if ids == {} then 0
    else Budget(lane, Pick(ids)) + Budgets(lane, ids - {Pick(ids)})
  }

  /** The sum does not depend on the order in which the jobs are taken. */
  lemma {:induction false} BudgetsPick(lane: Lane, ids: set<int>, id: int)
    requires id in ids
    ensures Budgets(lane, ids) == Budget(lane, id) + Budgets(lane, ids - {id})
  {
    var first := Pick(ids);
    if first != id {
      BudgetsPick(lane, ids - {first}, id);
      BudgetsPick(lane, ids - {id}, first);
      assert ids - {first} - {id} == ids - {id} - {first};
    }
  }

  lemma {:induction false} BudgetsAgree(a: Lane, b: Lane, ids: set<int>)
    requires forall id | id in ids :: Budget(a, id) == Budget(b, id)
    ensures Budgets(a, ids) == Budgets(b, ids)
  {
    if ids != {} {
      var first := Pick(ids);
      BudgetsAgree(a, b, ids - {first});
    }
  }

  /** |queue| plus the retries that the jobs still have. */
  ghost function Measure(s: System, t: JobType): nat {
    |s.LaneOf(t).queue| + Budgets(s.LaneOf(t), s.db.jobs.Keys)
  }

  /** `process` creates and deletes no job, leaves the lists alone, and pays for a retry. */
  lemma ProcessPays(db: Db, lane: Lane, t: JobType, id: int, verdict: Verdict, tracking: Tracking)
    ensures var p := ProcessJob(db, lane, t, id, verdict, tracking);
            && p.db.jobs.Keys == db.jobs.Keys
            && p.lane.queue == lane.queue && p.lane.limit == lane.limit
            && (forall j | j != id :: Budget(p.lane, j) == Budget(lane, j))
            && Budget(p.lane, id) <= Budget(lane, id)
            && (p.again ==> id in db.jobs && Budget(p.lane, id) < Budget(lane, id))
  {
  }

  /** Every attempt brings the drain closer to its end: for garbage, missing jobs, duplicates and
      retries alike, whatever the processor did. */
  lemma AttemptDecreases(s: System, t: JobType, verdict: Verdict, tracking: Tracking)
    requires s.LaneOf(t).queue != []
    ensures Measure(Attempt(s, t, verdict, tracking), t) < Measure(s, t)
  {
    hide ProcessJob, Budget;
    var raw := s.LaneOf(t).queue[0];
    var lane, lane' := s.LaneOf(t), Attempt(s, t, verdict, tracking).LaneOf(t);
    var ids := s.db.jobs.Keys;
    if raw.Id? {
      ProcessPays(s.db, Take(lane), t, raw.id, verdict, tracking);
      SameBudgets(lane, Take(lane));
      var p := ProcessJob(s.db, Take(lane), t, raw.id, verdict, tracking);
      SameBudgets(p.lane, lane');
      if raw.id in ids {
        BudgetsPick(lane, ids, raw.id);
        BudgetsPick(lane', ids, raw.id);
        BudgetsAgree(lane, lane', ids - {raw.id});
      } else {
        BudgetsAgree(lane, lane', ids);
      }
    } else {
      SameBudgets(lane, lane');
      BudgetsAgree(lane, lane', ids);
    }
  }

  lemma SameBudgets(a: Lane, b: Lane)
    requires a.counters == b.counters && a.limit == b.limit
    ensures forall id :: Budget(a, id) == Budget(b, id)
  {
  }
}
