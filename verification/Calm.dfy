/** Fault-free runs: no crash, no escaped exception, no lost reply, no lost list or counter, no
    deletion while the job is inside `process`, and no poem in flight between its commit and its
    pushes while a reconcile reads. In such runs nothing is ever duplicated, so maintenance has
    nothing to do and FAILED is as final as DONE. */
module Calm {
  import opened Basics
  import opened Protocol
  import opened Safety
  import opened Delivery

  predicate InProcess(stage: Stage, id: int) {
    WorkingOn(stage, id) && !stage.Requeueing?
  }

  predicate Reconciling(stage: Stage) {
    stage.ScannedQueue? || stage.ScannedAll? || stage.Pushing?
  }

  predicate AllPushed(s: System, t: JobType) {
    forall id | id in s.db.jobs && s.db.jobs[id].kind == t :: id in s.enqueued
  }

  predicate DeletesInProcess(s: System, t: JobType, poem: int) {
    exists id | id in s.db.jobs :: InProcess(s.LaneOf(t).stage, id) && BelongsTo(s.db, KeyOf(s.db.jobs[id]), poem)
  }

  predicate Faultless(s: System, e: Event) {
    match e
    case Work(t, PopReplyLost) => false
    case Work(t, Escape) => false
    case Work(t, ScanQueue(wanted)) => AllPushed(s, t) && wanted <= {JobStatus.Queued, JobStatus.Running}
    case Work(_, _) => true
    case Outside(PersistPoem(_, _, _)) => !Reconciling(s.image.stage) && !Reconciling(s.audio.stage)
    case Outside(DeletePoem(poem)) => !DeletesInProcess(s, Image, poem) && !DeletesInProcess(s, Audio, poem)
    case Outside(RestartRedis(_, _, _)) => false
    case Outside(LoseCounter(_, _)) => false
    case Outside(_) => true
  }

  ghost predicate CalmRun(s: System, es: seq<Event>) {
    es == [] || (CalmRun(s, es[..|es| - 1]) && Faultless(Exec(s, es[..|es| - 1]), es[|es| - 1]))
  }

  // ---------------------------------------------------------------- the invariant

  function InHand(stage: Stage): Option<Raw> {
    match stage
    case Popped(id) => Some(Id(id))
    case GotJob(id, _, _) => Some(Id(id))
    case NoAsset(id) => Some(Id(id))
    case GotAsset(id, _, _, _) => Some(Id(id))
    case Processing(id, _) => Some(Id(id))
    case Booking(id, _) => Some(Id(id))
    case Resolved(id, _, _) => Some(Id(id))
    case Requeueing(id) => Some(Id(id))
    case Acking(raw) => Some(raw)
    case _ => None
  }

  /** The processing list is exactly what the worker has in hand, and a reconcile finds nothing. */
  predicate Tidy(lane: Lane) {
    && lane.processing == (if InHand(lane.stage).Some? then [InHand(lane.stage).value] else [])
    && !lane.stage.Pushing?
    && (lane.stage.ScannedQueue? || lane.stage.ScannedAll? ==>
          lane.stage.statuses <= {JobStatus.Queued, JobStatus.Running})
  }

  predicate OnlyIssued(issued: map<int, JobType>, lane: Lane) {
    (forall id | id in lane.counters :: id in issued) && (forall id | id in lane.log.runs :: id in issued)
  }

  function Max0(n: int): nat {
    if n < 0 then 0 else n
  }

  function Waiting(lane: Lane, id: int): nat {
    multiset(lane.queue)[Id(id)]
  }

  /** One id: it waits at most once, never while the worker still holds it, and only if its job can
      still be tried. */
  predicate PlaceOk(db: Db, pushed: bool, lane: Lane, id: int) {
    var held := InHand(lane.stage) == Some(Id(id));
    && Waiting(lane, id) <= 1
    && (Waiting(lane, id) == 1 || held ==> pushed)
    && (Waiting(lane, id) == 1 && held ==> lane.stage.Acking?)
    && (InProcess(lane.stage, id) ==> id in db.jobs)
    && (lane.stage.Popped? && held && id in db.jobs ==> db.jobs[id].status.Queued?)
    && (id in db.jobs ==>
          match db.jobs[id].status
          case Queued => pushed ==> Waiting(lane, id) == 1 || (held && !lane.stage.Acking?)
          case Running => pushed && (lane.stage.Processing? || lane.stage.Booking? || lane.stage.Resolved?) && held
          case _ => pushed && Waiting(lane, id) == 0 && !WorkingOn(lane.stage, id))
    && (lane.stage.ScannedQueue? || lane.stage.ScannedAll? ==> IsOpen(db, id) ==> id in lane.stage.seen)
  }

  /** One id: how often its processor was started against its counter. */
  predicate RunsOk(db: Db, lane: Lane, id: int) {
    var runs, counter := Count(lane.log.runs, id), Count(lane.counters, id);
    && runs <= Max0(lane.limit) + 1
    && (id in db.jobs && db.jobs[id].status.Queued? ==> runs <= counter <= Max0(lane.limit))
    && (RetryDue(lane.stage, id) ==> runs <= counter <= Max0(lane.limit))
    && ((lane.stage.Processing? || lane.stage.Booking?) && lane.stage.id == id ==>
          runs <= counter + 1 && counter <= Max0(lane.limit))
  }

  ghost predicate CalmLane(s: System, t: JobType) {
    && Tidy(s.LaneOf(t)) && OnlyIssued(s.issued, s.LaneOf(t))
    && forall id | IssuedTo(s.issued, t, id) ::
         PlaceOk(s.db, id in s.enqueued, s.LaneOf(t), id) && RunsOk(s.db, s.LaneOf(t), id)
  }

  ghost predicate CalmInv(s: System) {
    && Inv(s)
    && (forall id | id in s.enqueued :: id in s.issued)
    && CalmLane(s, Image) && CalmLane(s, Audio)
  }

  // ---------------------------------------------------------------- the lane's own worker

  predicate FaultlessStep(w: WorkerStep) {
    !w.PopReplyLost? && !w.Escape? && !w.ScanQueue?
  }

  ghost predicate FindsNothing(db: Db, lane: Lane, t: JobType, w: WorkerStep) {
    w.QueryJobs? && lane.stage.ScannedAll? && Enumerates(w.rows, Eligible(db, t, lane.stage.statuses)) ==>
      Missing(w.rows, lane.stage.seen) == []
  }

  lemma CommitsKeepTidy(db: Db, issued: map<int, JobType>, refs: set<Key>, lane: Lane, t: JobType, w: WorkerStep)
    requires DbOk(db, issued, refs) && LaneOk(db, issued, t, lane) && Tidy(lane) && Commits(w)
    requires forall id | IssuedTo(issued, t, id) :: InProcess(lane.stage, id) ==> id in db.jobs
    ensures Tidy(WorkStep(db, lane, t, w).lane)
  {
    hide OneJobPerAsset;
  }

  lemma OthersKeepTidy(db: Db, lane: Lane, t: JobType, w: WorkerStep)
    requires Tidy(lane) && FaultlessStep(w) && !Commits(w) && FindsNothing(db, lane, t, w)
    ensures Tidy(WorkStep(db, lane, t, w).lane)
  {
    if w.Pop? && lane.queue != [] {
      assert lane.queue == [lane.queue[0]] + lane.queue[1..];
    }
  }

  lemma TakeWaits(lane: Lane, id: int)
    requires lane.queue != []
    ensures Waiting(Take(lane), id) == Waiting(lane, id) - if lane.queue[0] == Id(id) then 1 else 0
  {
    assert lane.queue == [lane.queue[0]] + lane.queue[1..];
  }

  lemma PopKeepsPlace(db: Db, pushed: bool, lane: Lane, t: JobType, id: int)
    requires Tidy(lane) && PlaceOk(db, pushed, lane, id)
    ensures var l := WorkStep(db, lane, t, Pop); PlaceOk(l.db, pushed, l.lane, id)
  {
    if lane.queue != [] {
      TakeWaits(lane, id);
    }
  }

  lemma PushRetryKeepsPlace(db: Db, pushed: bool, lane: Lane, t: JobType, id: int)
    requires Tidy(lane) && PlaceOk(db, pushed, lane, id)
    requires id in db.jobs && lane.stage == Requeueing(id) ==> db.jobs[id].status.Queued?
    ensures var l := WorkStep(db, lane, t, PushRetry); PlaceOk(l.db, pushed, l.lane, id)
  {
    if lane.stage.Requeueing? {
      var n := if lane.stage.id == id then 1 else 0;
      assert Waiting(PushBack(lane, Id(lane.stage.id)), id) == Waiting(lane, id) + n;
    }
  }

  lemma ListsKeepPlace(db: Db, pushed: bool, lane: Lane, t: JobType, w: WorkerStep, id: int)
    requires (w.Ack? || w.ReapOne? || w.PushOrphan?) && Tidy(lane) && PlaceOk(db, pushed, lane, id)
    ensures var l := WorkStep(db, lane, t, w); PlaceOk(l.db, pushed, l.lane, id)
  {
  }

  /** By the bijection, a queued job's asset is there to be read. */
  lemma ReadsKeepPlace(db: Db, issued: map<int, JobType>, refs: set<Key>, pushed: bool, lane: Lane, t: JobType,
                       w: WorkerStep, id: int)
    requires (w.ReadJob? || w.ReadAsset?) && PlaceOk(db, pushed, lane, id)
    requires DbOk(db, issued, refs) && LaneOk(db, issued, t, lane)
    ensures var l := WorkStep(db, lane, t, w); PlaceOk(l.db, pushed, l.lane, id)
  {
  }

  lemma StagesKeepPlace(db: Db, pushed: bool, lane: Lane, t: JobType, w: WorkerStep, id: int)
    requires !MovesEntries(w) && !Commits(w) && !w.ReadJob? && !w.ReadAsset?
    requires FaultlessStep(w) && FindsNothing(db, lane, t, w) && Tidy(lane) && PlaceOk(db, pushed, lane, id)
    ensures var l := WorkStep(db, lane, t, w); PlaceOk(l.db, pushed, l.lane, id)
  {
  }

  lemma CommitRunningKeepsPlace(db: Db, issued: map<int, JobType>, refs: set<Key>, pushed: bool, lane: Lane,
                                t: JobType, id: int)
    requires Tidy(lane) && PlaceOk(db, pushed, lane, id)
    requires DbOk(db, issued, refs) && LaneOk(db, issued, t, lane)
    requires forall j | IssuedTo(issued, t, j) :: InProcess(lane.stage, j) ==> j in db.jobs
    ensures var l := WorkStep(db, lane, t, CommitRunning); PlaceOk(l.db, pushed, l.lane, id)
  {
    hide OneJobPerAsset;
  }

  lemma CommitOutcomeKeepsPlace(db: Db, issued: map<int, JobType>, refs: set<Key>, pushed: bool, lane: Lane,
                                t: JobType, id: int)
    requires Tidy(lane) && PlaceOk(db, pushed, lane, id)
    requires DbOk(db, issued, refs) && LaneOk(db, issued, t, lane)
    requires forall j | IssuedTo(issued, t, j) :: InProcess(lane.stage, j) ==> j in db.jobs
    ensures var l := WorkStep(db, lane, t, CommitOutcome); PlaceOk(l.db, pushed, l.lane, id)
  {
    hide OneJobPerAsset;
  }

  lemma CommitRunningKeepsRuns(db: Db, issued: map<int, JobType>, pushed: bool, lane: Lane, t: JobType, id: int)
    requires LaneOk(db, issued, t, lane) && PlaceOk(db, pushed, lane, id) && RunsOk(db, lane, id)
    ensures var l := WorkStep(db, lane, t, CommitRunning); RunsOk(l.db, l.lane, id)
  {
    if lane.stage.GotAsset? && lane.stage.id == id {
      assert InProcess(lane.stage, id);
      assert db.jobs[id].status.Queued?;
    }
  }

  lemma CommitOutcomeKeepsRuns(db: Db, issued: map<int, JobType>, pushed: bool, lane: Lane, t: JobType, id: int)
    requires LaneOk(db, issued, t, lane) && PlaceOk(db, pushed, lane, id) && RunsOk(db, lane, id)
    ensures var l := WorkStep(db, lane, t, CommitOutcome); RunsOk(l.db, l.lane, id)
  {
  }

  lemma TrackKeepsRuns(db: Db, issued: map<int, JobType>, pushed: bool, lane: Lane, t: JobType, tracking: Tracking,
      id: int)
    requires LaneOk(db, issued, t, lane) && PlaceOk(db, pushed, lane, id) && RunsOk(db, lane, id)
    ensures var l := WorkStep(db, lane, t, Track(tracking)); RunsOk(l.db, l.lane, id)
  {
    if lane.stage.Booking? && lane.stage.id == id {
      assert InProcess(lane.stage, id);
      assert db.jobs[id].status.Running?;
    }
  }

  lemma OthersKeepRuns(db: Db, lane: Lane, t: JobType, w: WorkerStep, id: int)
    requires !Commits(w) && !w.Track? && FaultlessStep(w) && RunsOk(db, lane, id)
    ensures var l := WorkStep(db, lane, t, w); RunsOk(l.db, l.lane, id)
  {
    var l := WorkStep(db, lane, t, w);
    assert l.db == db && l.lane.counters == lane.counters && l.lane.limit == lane.limit;
    assert l.lane.log.runs == lane.log.runs;
  }

  lemma ReconcileFindsNothing(s: System, t: JobType, rows: seq<int>)
    requires CalmInv(s) && s.LaneOf(t).stage.ScannedAll?
    requires Enumerates(rows, Eligible(s.db, t, s.LaneOf(t).stage.statuses))
    ensures Missing(rows, s.LaneOf(t).stage.seen) == []
  {
    forall id | id in rows ensures id in s.LaneOf(t).stage.seen {
      assert IssuedTo(s.issued, t, id) && IsOpen(s.db, id);
    }
    NothingMissing(rows, s.LaneOf(t).stage.seen);
  }

  lemma ScanKeepsId(db: Db, lane: Lane, t: JobType, wanted: set<JobStatus>, pushed: bool, id: int)
    requires lane.stage.Idle? && PlaceOk(db, pushed, lane, id) && RunsOk(db, lane, id)
    requires id in db.jobs ==> pushed
    ensures var l := WorkStep(db, lane, t, ScanQueue(wanted));
            PlaceOk(l.db, pushed, l.lane, id) && RunsOk(l.db, l.lane, id)
  {
    if IsOpen(db, id) {
      assert Waiting(lane, id) == 1;
      assert Id(id) in lane.queue;
    }
  }

  lemma ScanKeepsCalm(s: System, t: JobType, wanted: set<JobStatus>)
    requires CalmInv(s) && Faultless(s, Work(t, ScanQueue(wanted)))
    ensures CalmLane(Step(s, Work(t, ScanQueue(wanted))), t)
  {
    hide OneJobPerAsset, PlaceOk, RunsOk;
    var l := WorkStep(s.db, s.LaneOf(t), t, ScanQueue(wanted));
    forall id | IssuedTo(s.issued, t, id)
      ensures PlaceOk(l.db, id in s.enqueued, l.lane, id) && RunsOk(l.db, l.lane, id)
    {
      if s.LaneOf(t).stage.Idle? { ScanKeepsId(s.db, s.LaneOf(t), t, wanted, id in s.enqueued, id); }
    }
  }

  lemma WorkKeepsPlace(db: Db, issued: map<int, JobType>, refs: set<Key>, pushed: bool, lane: Lane, t: JobType,
                       w: WorkerStep, id: int)
    requires DbOk(db, issued, refs) && LaneOk(db, issued, t, lane)
    requires FaultlessStep(w) && FindsNothing(db, lane, t, w)
    requires Tidy(lane) && PlaceOk(db, pushed, lane, id)
    requires forall j | IssuedTo(issued, t, j) :: InProcess(lane.stage, j) ==> j in db.jobs
    ensures PlaceOk(WorkStep(db, lane, t, w).db, pushed, WorkStep(db, lane, t, w).lane, id)
  {
    hide WorkStep, PlaceOk, DbOk;
    if w.Pop? {
      PopKeepsPlace(db, pushed, lane, t, id);
    } else if w.PushRetry? {
      assert StageOk(db, issued, t, lane.stage);
      PushRetryKeepsPlace(db, pushed, lane, t, id);
    } else if MovesEntries(w) {
      ListsKeepPlace(db, pushed, lane, t, w, id);
    } else if w.CommitRunning? {
      CommitRunningKeepsPlace(db, issued, refs, pushed, lane, t, id);
    } else if w.CommitOutcome? {
      CommitOutcomeKeepsPlace(db, issued, refs, pushed, lane, t, id);
    } else if w.ReadJob? || w.ReadAsset? {
      ReadsKeepPlace(db, issued, refs, pushed, lane, t, w, id);
    } else {
      StagesKeepPlace(db, pushed, lane, t, w, id);
    }
  }

  lemma WorkKeepsRuns(db: Db, issued: map<int, JobType>, pushed: bool, lane: Lane, t: JobType, w: WorkerStep, id: int)
    requires FaultlessStep(w) && LaneOk(db, issued, t, lane)
    requires PlaceOk(db, pushed, lane, id) && RunsOk(db, lane, id)
    ensures RunsOk(WorkStep(db, lane, t, w).db, WorkStep(db, lane, t, w).lane, id)
  {
    match w
    case CommitRunning => CommitRunningKeepsRuns(db, issued, pushed, lane, t, id);
    case CommitOutcome => CommitOutcomeKeepsRuns(db, issued, pushed, lane, t, id);
    case Track(tracking) => TrackKeepsRuns(db, issued, pushed, lane, t, tracking, id);
    case _ => OthersKeepRuns(db, lane, t, w, id);
  }

  lemma WorkKeepsIssued(db: Db, issued: map<int, JobType>, lane: Lane, t: JobType, w: WorkerStep)
    requires OnlyIssued(issued, lane) && StageOk(db, issued, t, lane.stage)
    ensures OnlyIssued(issued, WorkStep(db, lane, t, w).lane)
  {
  }

  lemma WorkKeepsCalm(s: System, t: JobType, w: WorkerStep)
    requires CalmInv(s) && FaultlessStep(w)
    ensures CalmLane(Step(s, Work(t, w)), t)
  {
    hide WorkStep;
    var lane := s.LaneOf(t);
    var l := WorkStep(s.db, lane, t, w);
    if w.QueryJobs? && lane.stage.ScannedAll? && Enumerates(w.rows, Eligible(s.db, t, lane.stage.statuses)) {
      ReconcileFindsNothing(s, t, w.rows);
    }
    if Commits(w) { CommitsKeepTidy(s.db, s.issued, s.refs, lane, t, w); } else { OthersKeepTidy(s.db, lane, t, w); }
    WorkKeepsIssued(s.db, s.issued, lane, t, w);
    forall id | IssuedTo(s.issued, t, id)
      ensures PlaceOk(l.db, id in s.enqueued, l.lane, id) && RunsOk(l.db, l.lane, id)
    {
      WorkKeepsPlace(s.db, s.issued, s.refs, id in s.enqueued, lane, t, w, id);
      WorkKeepsRuns(s.db, s.issued, id in s.enqueued, lane, t, w, id);
    }
  }

  // ---------------------------------------------------------------- everything else

  lemma OtherLaneStaysCalm(s: System, t: JobType, w: WorkerStep, u: JobType)
    requires CalmInv(s) && u != t
    ensures CalmLane(Step(s, Work(t, w)), u)
  {
    hide OneJobPerAsset;
    hide WorkStep;
    WorkFrames(s.db, s.issued, s.refs, s.LaneOf(t), t, w, u);
  }

  lemma PersistKeepsCalm(s: System, k: JobType, poem: int, n: Option<Fresh>, t: JobType)
    requires Inv(s) && CalmLane(s, t) && FreshFor(s, k, n) && !Reconciling(s.LaneOf(t).stage)
    requires forall id | id in s.enqueued :: id in s.issued
    ensures CalmLane(AddJob(s, k, poem, n), t)
  {
    var s', lane := AddJob(s, k, poem, n), s.LaneOf(t);
    forall id | IssuedTo(s'.issued, t, id)
      ensures PlaceOk(s'.db, id in s'.enqueued, lane, id) && RunsOk(s'.db, lane, id)
    {
      if id !in s.issued {
        assert Id(id) !in lane.queue;
      }
    }
  }

  lemma PushBackKeepsPlace(db: Db, pushed: bool, lane: Lane, id: int, raw: Raw)
    requires PlaceOk(db, pushed, lane, id) && RunsOk(db, lane, id)
    ensures raw != Id(id) ==> PlaceOk(db, pushed, PushBack(lane, raw), id)
    ensures raw == Id(id) && !pushed ==> PlaceOk(db, true, PushBack(lane, raw), id)
    ensures RunsOk(db, PushBack(lane, raw), id)
  {
  }

  lemma EnqueueKeepsCalm(s: System, job: int, t: JobType)
    requires CalmInv(s)
    ensures CalmLane(Step(s, Outside(Enqueue(job))), t)
  {
    hide OneJobPerAsset, PlaceOk, RunsOk, WorkStep;
    var s' := Step(s, Outside(Enqueue(job)));
    if job in s.issued && job !in s.enqueued {
      var k := s.issued[job];
      forall id | IssuedTo(s.issued, t, id)
        ensures PlaceOk(s'.db, id in s'.enqueued, s'.LaneOf(t), id) && RunsOk(s'.db, s'.LaneOf(t), id)
      {
        if t == k { PushBackKeepsPlace(s.db, id in s.enqueued, s.LaneOf(t), id, Id(job)); }
      }
    }
  }

  lemma DeleteKeepsId(db: Db, poem: int, pushed: bool, lane: Lane, id: int)
    requires PlaceOk(db, pushed, lane, id) && RunsOk(db, lane, id)
    requires id in db.jobs && InProcess(lane.stage, id) ==> !BelongsTo(db, KeyOf(db.jobs[id]), poem)
    ensures PlaceOk(WithoutPoem(db, poem), pushed, lane, id) && RunsOk(WithoutPoem(db, poem), lane, id)
  {
  }

  lemma DeleteKeepsCalm(s: System, poem: int, t: JobType)
    requires CalmInv(s) && Faultless(s, Outside(DeletePoem(poem)))
    ensures CalmLane(Step(s, Outside(DeletePoem(poem))), t)
  {
    hide OneJobPerAsset, PlaceOk, RunsOk, WorkStep, WithoutPoem;
    var lane := s.LaneOf(t);
    forall id | IssuedTo(s.issued, t, id)
      ensures PlaceOk(WithoutPoem(s.db, poem), id in s.enqueued, lane, id) && RunsOk(WithoutPoem(s.db, poem), lane, id)
    {
      DeleteKeepsId(s.db, poem, id in s.enqueued, lane, id);
    }
  }

  lemma GarbageKeepsCalm(s: System, k: JobType, bytes: string, t: JobType)
    requires CalmInv(s)
    ensures CalmLane(Step(s, Outside(PushGarbage(k, bytes))), t)
  {
    hide WorkStep, OneJobPerAsset;
    forall id | IssuedTo(s.issued, t, id)
      ensures PlaceOk(s.db, id in s.enqueued, PushBack(s.LaneOf(t), Garbage(bytes)), id)
      ensures RunsOk(s.db, PushBack(s.LaneOf(t), Garbage(bytes)), id)
    {
      PushBackKeepsPlace(s.db, id in s.enqueued, s.LaneOf(t), id, Garbage(bytes));
    }
  }

  lemma PoemRowKeepsCalm(s: System, poem: int, t: JobType)
    requires CalmLane(s, t)
    ensures CalmLane(WithPoem(s, poem), t)
  {
    forall id | IssuedTo(s.issued, t, id)
      ensures PlaceOk(WithPoem(s, poem).db, id in s.enqueued, s.LaneOf(t), id)
      ensures RunsOk(WithPoem(s, poem).db, s.LaneOf(t), id)
    {
      assert PlaceOk(s.db, id in s.enqueued, s.LaneOf(t), id) && RunsOk(s.db, s.LaneOf(t), id);
    }
  }

  lemma OutsideKeepsCalm(s: System, o: OutsideStep, t: JobType)
    requires CalmInv(s) && Faultless(s, Outside(o))
    ensures CalmLane(Step(s, Outside(o)), t)
  {
    hide WorkStep, PlaceOk, RunsOk;
    hide OneJobPerAsset;
    match o
    case PersistPoem(poem, image, audio) =>
      if CanPersist(s, poem, image, audio) {
        var s0 := WithPoem(s, poem);
        PoemRowOk(s, poem);
        PoemRowKeepsCalm(s, poem, t);
        AddJobOk(s0, Image, poem, image);
        PersistKeepsCalm(s0, Image, poem, image, t);
        PersistKeepsCalm(AddJob(s0, Image, poem, image), Audio, poem, audio, t);
      }
    case Enqueue(id) => EnqueueKeepsCalm(s, id, t);
    case DeletePoem(poem) => DeleteKeepsCalm(s, poem, t);
    case PushGarbage(k, bytes) => GarbageKeepsCalm(s, k, bytes, t);
  }

  lemma StepKeepsCalm(s: System, e: Event)
    requires CalmInv(s) && Faultless(s, e)
    ensures CalmInv(Step(s, e))
  {
    hide OneJobPerAsset;
    hide WorkStep;
    hide CalmLane;
    StepKeepsInv(s, e);
    StepIssues(s, e);
    match e
    case Work(t, w) =>
      var u := if t.Image? then Audio else Image;
      OtherLaneStaysCalm(s, t, w, u);
      if w.ScanQueue? { ScanKeepsCalm(s, t, w.wanted); } else { WorkKeepsCalm(s, t, w); }
    case Outside(o) =>
      OutsideKeepsCalm(s, o, Image);
      OutsideKeepsCalm(s, o, Audio);
  }

  lemma {:induction false} CalmRunKeepsInv(imageLimit: int, audioLimit: int, es: seq<Event>)
    requires CalmRun(Start(imageLimit, audioLimit), es)
    ensures CalmInv(Exec(Start(imageLimit, audioLimit), es))
  {
    if es != [] {
      CalmRunKeepsInv(imageLimit, audioLimit, es[..|es| - 1]);
      StepKeepsCalm(Exec(Start(imageLimit, audioLimit), es[..|es| - 1]), es[|es| - 1]);
    }
  }

  // ---------------------------------------------------------------- what fault-free runs promise

  /** No duplicates: an id waits at most once, and is on both lists at once only between the retry push
      and the ack. */
  lemma {:induction false} NoDuplicates(imageLimit: int, audioLimit: int, es: seq<Event>, t: JobType, id: int)
    requires CalmRun(Start(imageLimit, audioLimit), es)
    ensures var lane := Exec(Start(imageLimit, audioLimit), es).LaneOf(t);
            var copies := multiset(lane.queue)[Id(id)] + multiset(lane.processing)[Id(id)];
            copies <= (if lane.stage == Acking(Id(id)) then 2 else 1)
  {
    CalmRunKeepsInv(imageLimit, audioLimit, es);
    var lane := Exec(Start(imageLimit, audioLimit), es).LaneOf(t);
    if Id(id) in lane.queue || Id(id) in lane.processing {
      assert IssuedTo(Exec(Start(imageLimit, audioLimit), es).issued, t, id);
    }
  }

  lemma NothingToReap(s: System, t: JobType)
    requires CalmInv(s)
    ensures Step(s, Work(t, ReapOne)) == s && Step(s, Work(t, PushOrphan)) == s
  {
  }

  lemma NothingToPush(s: System, t: JobType, rows: seq<int>)
    requires CalmInv(s) && s.LaneOf(t).stage.ScannedAll?
    requires Enumerates(rows, Eligible(s.db, t, s.LaneOf(t).stage.statuses))
    ensures WorkStep(s.db, s.LaneOf(t), t, QueryJobs(rows)) == Local(s.db, s.LaneOf(t).(stage := Idle))
  {
    ReconcileFindsNothing(s, t, rows);
  }

  /** Maintenance is a no-op: an idle worker has nothing to reap, and whatever the query answers, the
      reconcile that read the lists goes back to idle without a push. */
  lemma {:induction false} MaintenanceIsNoOp(imageLimit: int, audioLimit: int, es: seq<Event>, t: JobType,
      rows: seq<int>)
    requires CalmRun(Start(imageLimit, audioLimit), es)
    ensures var s := Exec(Start(imageLimit, audioLimit), es);
            && Step(s, Work(t, ReapOne)) == s
            && Step(s, Work(t, PushOrphan)) == s
            && (s.LaneOf(t).stage.ScannedAll? && Enumerates(rows, Eligible(s.db, t, s.LaneOf(t).stage.statuses))
                ==> Step(s, Work(t, QueryJobs(rows))) == s.With(t, s.db, s.LaneOf(t).(stage := Idle)))
  {
    CalmRunKeepsInv(imageLimit, audioLimit, es);
    var s := Exec(Start(imageLimit, audioLimit), es);
    NothingToReap(s, t);
    if s.LaneOf(t).stage.ScannedAll? && Enumerates(rows, Eligible(s.db, t, s.LaneOf(t).stage.statuses)) {
      NothingToPush(s, t, rows);
    }
  }

  lemma LimitNeverChanges(s: System, es: seq<Event>, t: JobType)
    ensures Exec(s, es).LaneOf(t).limit == s.LaneOf(t).limit
  {
    if es != [] {
      LimitNeverChanges(s, es[..|es| - 1], t);
      StepKeepsLimit(Exec(s, es[..|es| - 1]), es[|es| - 1], t);
    }
  }

  /** A job's processor is started at most max_retries + 1 times. */
  lemma RunsBounded(imageLimit: int, audioLimit: int, es: seq<Event>, t: JobType, id: int)
    requires CalmRun(Start(imageLimit, audioLimit), es)
    requires IssuedTo(Exec(Start(imageLimit, audioLimit), es).issued, t, id)
    ensures Count(Exec(Start(imageLimit, audioLimit), es).LaneOf(t).log.runs, id)
            <= Max0(Start(imageLimit, audioLimit).LaneOf(t).limit) + 1
  {
    CalmRunKeepsInv(imageLimit, audioLimit, es);
    LimitNeverChanges(Start(imageLimit, audioLimit), es, t);
  }

  lemma ClosedIsSkipped(s: System, id: int)
    requires CalmInv(s) && Settled(s, id)
    ensures Skipped(s, id)
  {
    if id in s.db.jobs {
      assert PlaceOk(s.db, id in s.enqueued, s.LaneOf(s.issued[id]), id);
    }
  }

  lemma {:induction false} CalmRunLeavesClosed(imageLimit: int, audioLimit: int, before: seq<Event>,
      after: seq<Event>, id: int)
    requires CalmRun(Start(imageLimit, audioLimit), before + after)
    requires CalmInv(Exec(Start(imageLimit, audioLimit), before))
    requires Settled(Exec(Start(imageLimit, audioLimit), before), id)
    ensures var s := Exec(Start(imageLimit, audioLimit), before);
            var s' := Exec(Start(imageLimit, audioLimit), before + after);
            Settled(s', id) && Untouched(s, s', id)
    decreases |after|
  {
    var start := Start(imageLimit, audioLimit);
    if after == [] {
      assert before + after == before;
    } else {
      var prefix, e := after[..|after| - 1], after[|after| - 1];
      assert (before + after)[..|before + after| - 1] == before + prefix;
      CalmRunLeavesClosed(imageLimit, audioLimit, before, prefix, id);
      var mid := Exec(start, before + prefix);
      CalmRunKeepsInv(imageLimit, audioLimit, before + prefix);
      ClosedIsSkipped(mid, id);
      StepLeavesSettled(mid, e, id);
    }
  }

  lemma {:induction false} CalmPrefix(s: System, before: seq<Event>, after: seq<Event>)
    requires CalmRun(s, before + after)
    ensures CalmRun(s, before)
    decreases |after|
  {
    if after == [] {
      assert before + after == before;
    } else {
      assert (before + after)[..|before + after| - 1] == before + after[..|after| - 1];
      CalmPrefix(s, before, after[..|after| - 1]);
    }
  }

  /** FAILED is final, like DONE: afterwards nothing changes the job or its asset or starts its
      processor again; only a deletion removes it. */
  lemma FailedIsFinal(imageLimit: int, audioLimit: int, before: seq<Event>, after: seq<Event>, id: int)
    requires CalmRun(Start(imageLimit, audioLimit), before + after)
    requires var db := Exec(Start(imageLimit, audioLimit), before).db; id in db.jobs && db.jobs[id].status.Failed?
    ensures var s := Exec(Start(imageLimit, audioLimit), before);
            Untouched(s, Exec(Start(imageLimit, audioLimit), before + after), id)
  {
    var s := Exec(Start(imageLimit, audioLimit), before);
    CalmPrefix(Start(imageLimit, audioLimit), before, after);
    CalmRunKeepsInv(imageLimit, audioLimit, before);
    assert PlaceOk(s.db, id in s.enqueued, s.LaneOf(s.issued[id]), id);
    CalmRunLeavesClosed(imageLimit, audioLimit, before, after, id);
  }
}
