/** Exactly when a FAILED job comes back, since `process` skips DONE only: in any continuation, and in the
    drain after a restart that is left alone. */
module Reopening {
  import opened Basics
  import opened Protocol
  import opened Safety
  import opened Attempts
  import opened WorkerCommon
  import opened Recovery

  // ---------------------------------------------------------------- in any continuation

  /** A reconcile asks for QUEUED and RUNNING jobs, or for QUEUED ones. */
  predicate AsksForOpen(e: Event) {
    e.Work? && e.w.ScanQueue? ==> e.w.wanted <= UNFINISHED
  }

  /** Anything but a Redis that comes back with other lists: crashes, escaped exceptions, lost replies, lost
      counters, reaps, reconciles, pushes and deletions all go on. */
  predicate Ordinary(e: Event) {
    AsksForOpen(e) && !(e.Outside? && e.o.RestartRedis?)
  }

  ghost predicate AllOrdinary(es: seq<Event>) {
    forall e | e in es :: Ordinary(e)
  }

  ghost predicate ScansForOpen(es: seq<Event>) {
    forall e | e in es :: AsksForOpen(e)
  }

  predicate ScansOpen(stage: Stage) {
    stage.ScannedQueue? || stage.ScannedAll? ==> stage.statuses <= UNFINISHED
  }

  /** Nothing on this lane leads back to the job. */
  predicate OffLane(lane: Lane, id: int) {
    && Id(id) !in lane.queue && Id(id) !in lane.processing
    && lane.stage != Popped(id)
    && (lane.stage.Pushing? ==> id !in lane.stage.todo)
    && ScansOpen(lane.stage)
  }

  /** The job's push is done, no worker is past the DONE check for it, and nothing leads back to it. */
  predicate Gone(s: System, id: int) {
    id in s.enqueued && Settled(s, id) && OffLane(s.image, id) && OffLane(s.audio, id)
  }

  lemma WorkStaysOff(db: Db, lane: Lane, t: JobType, w: WorkerStep, id: int)
    requires Ordinary(Work(t, w)) && OffLane(lane, id) && !WorkingOn(lane.stage, id)
    requires id in db.jobs ==> !Open(db.jobs[id].status)
    ensures OffLane(WorkStep(db, lane, t, w).lane, id)
  {
    match w
    case Pop => if lane.queue != [] { assert lane.queue == [lane.queue[0]] + lane.queue[1..]; }
    case PopReplyLost => if lane.queue != [] { assert lane.queue == [lane.queue[0]] + lane.queue[1..]; }
    case Ack => if lane.stage.Acking? { RemoveFirstKeepsOthers(lane.processing, lane.stage.raw, Id(id)); }
    case ReapOne => if lane.processing != [] { assert lane.processing == [lane.processing[0]] + lane.processing[1..]; }
    case QueryJobs(rows) => if lane.stage.ScannedAll? { MissingIsPart(rows, lane.stage.seen); }
    case PushOrphan => if lane.stage.Pushing? && lane.stage.todo != [] {
        assert lane.stage.todo == [lane.stage.todo[0]] + lane.stage.todo[1..];
      }
    case _ =>
  }

  lemma StepStaysGone(s: System, e: Event, id: int)
    requires Inv(s) && Gone(s, id) && Ordinary(e)
    ensures Gone(Step(s, e), id) && Untouched(s, Step(s, e), id)
  {
    StepLeavesSettled(s, e, id);
    match e
    case Work(t, w) =>
      WorkStaysOff(s.db, s.LaneOf(t), t, w, id);
      hide WorkStep, Inv, Untouched, Settled;
    case Outside(_) =>
      hide Inv, Untouched, Settled;
  }

  /** Once gone, the job stays as it is, or is deleted. */
  lemma {:induction false} GoneStays(s: System, es: seq<Event>, id: int)
    requires Inv(s) && Gone(s, id) && AllOrdinary(es)
    ensures Gone(Exec(s, es), id) && Untouched(s, Exec(s, es), id)
  {
    if es != [] {
      var front, last := es[..|es| - 1], es[|es| - 1];
      assert last in es && forall e | e in front :: e in es;
      GoneStays(s, front, id);
      ExecKeepsInv(s, front);
      StepStaysGone(Exec(s, front), last, id);
      hide Step, Gone, Inv;
    }
  }

  lemma WorkScansOpen(db: Db, lane: Lane, t: JobType, w: WorkerStep)
    requires AsksForOpen(Work(t, w)) && ScansOpen(lane.stage)
    ensures ScansOpen(WorkStep(db, lane, t, w).lane.stage)
  {
    hide WriteRows, Enumerates, Eligible, Missing, RemoveFirst, IdsIn;
  }

  lemma StepScansOpen(s: System, e: Event, t: JobType)
    requires AsksForOpen(e) && ScansOpen(s.LaneOf(t).stage)
    ensures ScansOpen(Step(s, e).LaneOf(t).stage)
  {
    if e.Work? && e.t == t { WorkScansOpen(s.db, s.LaneOf(t), t, e.w); }
    hide WorkStep;
  }

  lemma {:induction false} RunScansOpen(s: System, es: seq<Event>, t: JobType)
    requires ScansForOpen(es) && ScansOpen(s.LaneOf(t).stage)
    ensures ScansOpen(Exec(s, es).LaneOf(t).stage)
  {
    if es != [] {
      var front, last := es[..|es| - 1], es[|es| - 1];
      assert last in es && forall e | e in front :: e in es;
      RunScansOpen(s, front, t);
      StepScansOpen(Exec(s, front), last, t);
    }
  }

  // ---------------------------------------------------------------- the way back

  /** A FAILED job with its asset. */
  predicate FailedJob(s: System, t: JobType, id: int) {
    id in s.db.jobs && s.db.jobs[id].kind == t && s.db.jobs[id].status.Failed? && KeyOf(s.db.jobs[id]) in s.db.assets
  }

  /** The run that follows touches the job. */
  ghost predicate Touches(s: System, es: seq<Event>, id: int) {
    AllOrdinary(es) && !Untouched(s, Exec(s, es), id)
  }

  /** A step that only moves list entries and positions leads to whatever follows it. */
  lemma Lead(s: System, e: Event, es: seq<Event>, id: int) returns (all: seq<Event>)
    requires Ordinary(e) && Step(s, e).db == s.db && Touches(Step(s, e), es, id)
    requires Step(s, e).image.log.runs == s.image.log.runs && Step(s, e).audio.log.runs == s.audio.log.runs
    ensures Touches(s, all, id)
  {
    hide Step;
    all := [e] + es;
    ExecAppend(s, [e], es);
    assert [e][..0] == [] && Exec(s, []) == s;
  }

  lemma FromGotAsset(s: System, t: JobType, id: int) returns (es: seq<Event>)
    requires FailedJob(s, t, id)
    requires s.LaneOf(t).stage.GotAsset? && s.LaneOf(t).stage.id == id && s.LaneOf(t).stage.ref == s.db.jobs[id].ref
    ensures Touches(s, es, id)
  {
    es := [Work(t, CommitRunning)];
    assert es[..0] == [] && Exec(s, es[..0]) == s;
    var s' := Step(s, es[0]);
    assert s'.db.jobs[id].status.Running?;
    assert Exec(s, es) == s';
  }

  lemma FromGotJob(s: System, t: JobType, id: int) returns (es: seq<Event>)
    requires FailedJob(s, t, id)
    requires s.LaneOf(t).stage.GotJob? && s.LaneOf(t).stage.id == id && s.LaneOf(t).stage.ref == s.db.jobs[id].ref
    ensures Touches(s, es, id)
  {
    es := FromGotAsset(Step(s, Work(t, ReadAsset)), t, id);
    es := Lead(s, Work(t, ReadAsset), es, id);
  }

  lemma FromPopped(s: System, t: JobType, id: int) returns (es: seq<Event>)
    requires FailedJob(s, t, id) && s.LaneOf(t).stage == Popped(id)
    ensures Touches(s, es, id)
  {
    es := FromGotJob(Step(s, Work(t, ReadJob)), t, id);
    es := Lead(s, Work(t, ReadJob), es, id);
  }

  lemma FromQueue(s: System, t: JobType, id: int) returns (es: seq<Event>)
    requires FailedJob(s, t, id) && s.LaneOf(t).stage.Idle? && Id(id) in s.LaneOf(t).queue
    ensures Touches(s, es, id)
    decreases |s.LaneOf(t).queue|
  {
    var queue := s.LaneOf(t).queue;
    assert queue == [queue[0]] + queue[1..];
    if queue[0] == Id(id) {
      es := FromPopped(Step(s, Work(t, Pop)), t, id);
      es := Lead(s, Work(t, Pop), es, id);
    } else {
      es := FromQueue(Step(s, Work(t, PopReplyLost)), t, id);
      es := Lead(s, Work(t, PopReplyLost), es, id);
    }
  }

  lemma FromLists(s: System, t: JobType, id: int) returns (es: seq<Event>)
    requires FailedJob(s, t, id) && s.LaneOf(t).stage.Idle?
    requires Id(id) in s.LaneOf(t).queue || Id(id) in s.LaneOf(t).processing
    ensures Touches(s, es, id)
    decreases |s.LaneOf(t).processing|
  {
    if Id(id) in s.LaneOf(t).queue {
      es := FromQueue(s, t, id);
    } else {
      var parked := s.LaneOf(t).processing;
      assert parked == [parked[0]] + parked[1..];
      es := FromLists(Step(s, Work(t, ReapOne)), t, id);
      es := Lead(s, Work(t, ReapOne), es, id);
    }
  }

  /** Wherever the worker stands, it can crash and find the copy afterwards. */
  lemma FromListed(s: System, t: JobType, id: int) returns (es: seq<Event>)
    requires FailedJob(s, t, id) && (Id(id) in s.LaneOf(t).queue || Id(id) in s.LaneOf(t).processing)
    ensures Touches(s, es, id)
  {
    es := FromLists(Step(s, Work(t, Escape)), t, id);
    es := Lead(s, Work(t, Escape), es, id);
  }

  lemma FromTodo(s: System, t: JobType, id: int) returns (es: seq<Event>)
    requires FailedJob(s, t, id) && s.LaneOf(t).stage.Pushing? && id in s.LaneOf(t).stage.todo
    ensures Touches(s, es, id)
    decreases |s.LaneOf(t).stage.todo|
  {
    var todo := s.LaneOf(t).stage.todo;
    assert todo == [todo[0]] + todo[1..];
    var s' := Step(s, Work(t, PushOrphan));
    if todo[0] == id {
      assert s'.LaneOf(t).queue[|s.LaneOf(t).queue|] == Id(id);
      es := FromListed(s', t, id);
    } else {
      es := FromTodo(s', t, id);
    }
    es := Lead(s, Work(t, PushOrphan), es, id);
  }

  lemma FromPush(s: System, t: JobType, id: int) returns (es: seq<Event>)
    requires FailedJob(s, t, id) && id !in s.enqueued && IssuedTo(s.issued, t, id)
    ensures Touches(s, es, id)
  {
    var s' := Step(s, Outside(Enqueue(id)));
    assert s'.LaneOf(t).queue[|s.LaneOf(t).queue|] == Id(id);
    es := FromListed(s', t, id);
    es := Lead(s, Outside(Enqueue(id)), es, id);
  }

  lemma WayBack(s: System, t: JobType, id: int) returns (es: seq<Event>)
    requires Inv(s) && FailedJob(s, t, id) && !Gone(s, id)
    requires ScansOpen(s.image.stage) && ScansOpen(s.audio.stage)
    ensures Touches(s, es, id)
  {
    assert IssuedTo(s.issued, t, id);
    hide Touches;
    var lane := s.LaneOf(t);
    if id !in s.enqueued {
      es := FromPush(s, t, id);
    } else if lane.stage.GotAsset? && lane.stage.id == id {
      es := FromGotAsset(s, t, id);
    } else if lane.stage.GotJob? && lane.stage.id == id {
      es := FromGotJob(s, t, id);
    } else if lane.stage == Popped(id) {
      es := FromPopped(s, t, id);
    } else if lane.stage.Pushing? && id in lane.stage.todo {
      es := FromTodo(s, t, id);
    } else {
      es := FromListed(s, t, id);
    }
  }

  /** Exactly when FAILED is final: in every continuation with crashes, lost replies, reaps, reconciles and
      deletions the job stays as it is or is deleted, if and only if its API push is done, no worker is past
      the DONE check for it, and no list, popped entry or planned push names it. */
  lemma {:induction false} FailedStaysIffGone(imageLimit: int, audioLimit: int, before: seq<Event>, id: int)
    requires ScansForOpen(before)
    requires var db := Exec(Start(imageLimit, audioLimit), before).db; id in db.jobs && db.jobs[id].status.Failed?
    ensures var s := Exec(Start(imageLimit, audioLimit), before);
            (forall after | AllOrdinary(after) :: Untouched(s, Exec(Start(imageLimit, audioLimit), before + after), id))
            <==> Gone(s, id)
  {
    var start := Start(imageLimit, audioLimit);
    var s := Exec(start, before);
    ExecKeepsInv(start, before);
    RunScansOpen(start, before, Image);
    RunScansOpen(start, before, Audio);
    var t := s.db.jobs[id].kind;
    assert FailedJob(s, t, id);
    hide Inv, Gone, Untouched, Exec, FailedJob;
    if Gone(s, id) {
      forall after | AllOrdinary(after) ensures Untouched(s, Exec(start, before + after), id) {
        ExecAppend(start, before, after);
        GoneStays(s, after, id);
      }
    } else {
      var after := WayBack(s, t, id);
      ExecAppend(start, before, after);
    }
  }

  // ---------------------------------------------------------------- after a restart that is left alone

  lemma ProcessOnFailed(db: Db, lane: Lane, t: JobType, other: int, id: int, verdict: Verdict, tracking: Tracking)
    ensures var p := ProcessJob(db, lane, t, other, verdict, tracking);
            && p.lane.queue == lane.queue && p.lane.processing == lane.processing
            && p.db.jobs.Keys == db.jobs.Keys && p.db.assets.Keys == db.assets.Keys
            && Count(p.lane.log.runs, id) >= Count(lane.log.runs, id)
            && (other != id ==> Count(p.lane.log.runs, id) == Count(lane.log.runs, id)
                                && (id in db.jobs ==> p.db.jobs[id] == db.jobs[id]))
            && (other == id && id in db.jobs && db.jobs[id].status.Failed? && Key(t, db.jobs[id].ref) in db.assets ==>
                  Count(p.lane.log.runs, id) == Count(lane.log.runs, id) + 1)
  {
  }

  /** One attempt, seen from a FAILED job: it is run again exactly if its copy was at the head. */
  lemma AttemptOnFailed(s: System, t: JobType, id: int, verdict: Verdict, tracking: Tracking)
    requires s.LaneOf(t).queue != [] && id in s.db.jobs && s.db.jobs[id].status.Failed?
    requires Key(t, s.db.jobs[id].ref) in s.db.assets
    ensures var s', head := Attempt(s, t, verdict, tracking), s.LaneOf(t).queue[0];
            && Key(t, s.db.jobs[id].ref) in s'.db.assets
            && id in s'.db.jobs
            && Count(s'.LaneOf(t).log.runs, id) == Count(s.LaneOf(t).log.runs, id) + (if head == Id(id) then 1 else 0)
            && (head != Id(id) ==>
                  && s'.db.jobs[id] == s.db.jobs[id]
                  && (Id(id) in s'.LaneOf(t).queue <==> Id(id) in s.LaneOf(t).queue))
  {
    var queue := s.LaneOf(t).queue;
    assert queue == [queue[0]] + queue[1..];
    if queue[0].Id? { ProcessOnFailed(s.db, Take(s.LaneOf(t)), t, queue[0].id, id, verdict, tracking); }
    hide ProcessJob, Count, RemoveFirst;
  }

  /** Runs are only ever added. */
  lemma {:induction false} DrainOnlyAddsRuns(s: System, t: JobType, id: int, answers: seq<Answer>)
    ensures Count(Drain(s, t, answers).LaneOf(t).log.runs, id) >= Count(s.LaneOf(t).log.runs, id)
    decreases |answers|
  {
    if answers != [] && s.LaneOf(t).queue != [] {
      var head := s.LaneOf(t).queue[0];
      if head.Id? {
        ProcessOnFailed(s.db, Take(s.LaneOf(t)), t, head.id, id, answers[0].verdict, answers[0].tracking);
      }
      hide ProcessJob, Count, RemoveFirst;
      DrainOnlyAddsRuns(Attempt(s, t, answers[0].verdict, answers[0].tracking), t, id, answers[1..]);
    }
  }

  lemma {:induction false} DrainOnFailed(s: System, t: JobType, id: int, answers: seq<Answer>)
    requires id in s.db.jobs && s.db.jobs[id].status.Failed? && Key(t, s.db.jobs[id].ref) in s.db.assets
    requires |answers| >= Measure(s, t)
    ensures var s' := Drain(s, t, answers);
            && (Count(s'.LaneOf(t).log.runs, id) > Count(s.LaneOf(t).log.runs, id) <==> Id(id) in s.LaneOf(t).queue)
            && (Id(id) !in s.LaneOf(t).queue ==> id in s'.db.jobs && s'.db.jobs[id] == s.db.jobs[id])
    decreases |answers|
  {
    if s.LaneOf(t).queue != [] {
      var next := Attempt(s, t, answers[0].verdict, answers[0].tracking);
      AttemptDecreases(s, t, answers[0].verdict, answers[0].tracking);
      AttemptOnFailed(s, t, id, answers[0].verdict, answers[0].tracking);
      hide Attempt, Measure;
      if s.LaneOf(t).queue[0] == Id(id) {
        DrainOnlyAddsRuns(next, t, id, answers[1..]);
      } else {
        DrainOnFailed(next, t, id, answers[1..]);
      }
    }
  }

  /** A FAILED job runs again after a restart, left alone, exactly if a copy of it is on one of the lists;
      otherwise its row stays as it is. */
  lemma {:induction false} FailedStaysUnlessListed(s: System, t: JobType, id: int, rows: seq<int>, answers: seq<Answer>)
    requires id in s.db.jobs && s.db.jobs[id].status.Failed? && Key(t, s.db.jobs[id].ref) in s.db.assets
    requires Enumerates(rows, Eligible(s.db, t, UNFINISHED))
    requires |answers| >= Measure(Reconciled(Reaped(s, t), t, rows), t)
    ensures var lane, end := s.LaneOf(t), Drain(Reconciled(Reaped(s, t), t, rows), t, answers);
            var listed := Id(id) in lane.queue || Id(id) in lane.processing;
            && (Count(end.LaneOf(t).log.runs, id) > Count(lane.log.runs, id) <==> listed)
            && (!listed ==> id in end.db.jobs && end.db.jobs[id] == s.db.jobs[id])
  {
    var reaped := Reaped(s, t);
    var start := Reconciled(reaped, t, rows);
    ReapedMoves(s, t, Id(id));
    ReconciledHolds(reaped, t, rows);
    ReconcileIsExact(reaped, t, UNFINISHED, rows, rows);
    var before, after := reaped.LaneOf(t).queue, start.LaneOf(t).queue;
    assert after == before + after[|before|..];
    assert id !in Eligible(s.db, t, UNFINISHED);
    PushAllRuns(reaped.LaneOf(t), Missing(rows, SeenOn(reaped.LaneOf(t))));
    DrainOnFailed(start, t, id, answers);
  }

  lemma {:induction false} PushAllRuns(lane: Lane, ids: seq<int>)
    ensures PushAll(lane, ids).log.runs == lane.log.runs
    decreases |ids|
  {
    if ids != [] {
      PushAllRuns(PushBack(lane, Id(ids[0])), ids[1..]);
    }
  }
}
