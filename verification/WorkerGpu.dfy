/** The image worker (worker_gpu.py). */
module WorkerGpu {
  import opened Basics
  import opened Protocol
  import opened Worlds
  import opened WorkerCommon
  import Attempts
  import Recovery
  import opened Safety
  import opened Credits
  import opened AmidOthers
  import opened Maintenance

  class ImageWorker {
    const world: World
    const maxRetries: int

    constructor (world: World, maxRetries: int)
      ensures this.world == world && this.maxRetries == maxRetries
    {
      this.world, this.maxRetries := world, maxRetries;
    }

    /** The worker sits between two attempts. */
    ghost predicate Ready()
      reads this, world
    {
      world.Valid() && world.s.image.stage.Idle? && world.s.image.limit == maxRetries
    }

    /** The `try` of `process` and its commit: run the processor, record what it did. */
    method Render(job: JobRow, image: AssetRow)
      returns (r: Result<bool>, ghost verdict: Verdict, ghost tracking: Tracking)
      requires world.Valid() && world.s.image.stage == Processing(job.id, job.ref) && world.s.image.limit == maxRetries
      modifies world, job, image
      ensures Progress(world, Image)
      ensures r == Returned(true) ==> world.s.image.stage == Requeueing(job.id)
      ensures r == Returned(false) ==> world.s.image.stage == Acking(Id(job.id))
      ensures r.Returned? ==>
                var key := Key(Image, job.ref);
                && job.id in world.s.db.jobs && key in world.s.db.assets
                && (verdict.Produced? ==>
                      && !r.value && world.s.db.jobs[job.id].status.Done?
                      && world.s.db.assets[key].status.Done? && world.s.db.assets[key].path == Some(verdict.path))
                && (!verdict.Produced? && r.value ==>
                      world.s.db.jobs[job.id].status.Queued? && world.s.db.assets[key].status.Pending?)
                && (!verdict.Produced? && !r.value ==>
                      world.s.db.jobs[job.id].status.Failed? && world.s.db.assets[key].status.Failed?)
      ensures Uneventful(old(world.turns)) ==>
                var end := Attempts.Rendered(old(world.s), Image, verdict, tracking);
                end.image.stage.Idle? || (r.Returned? && world.s == end && (r.value <==> end.image.stage.Requeueing?))
    {
      hide Step;
      tracking := NotCounted;
      var requeue := false;
      var answer, b0 := world.RunProcessor(Image);
      verdict := answer;
      if answer.Produced? {
        image.path := Some(answer.path);
        image.status := AssetStatus.Done;
        job.status := JobStatus.Done;
      } else {
        ghost var b1;
        requeue, tracking, b1 := HandleJobFailure(world, job, image, Image, maxRetries);
      }
      var settled, b2 := world.CommitRows(Image, job, image);
      r := if settled.Raised? then Raised(settled.timedOut) else Returned(requeue);
    }

    /** One job to completion; true if it should be pushed again. */
    method Process(jobId: int) returns (r: Result<bool>, ghost verdict: Verdict, ghost tracking: Tracking)
      requires world.Valid() && world.s.image.stage == Popped(jobId) && world.s.image.limit == maxRetries
      modifies world
      ensures Progress(world, Image)
      ensures r == Returned(true) ==> world.s.image.stage == Requeueing(jobId)
      ensures r == Returned(false) ==> world.s.image.stage == Acking(Id(jobId))
      ensures Uneventful(old(world.turns)) ==>
                var p := Attempts.ProcessJob(old(world.s).db, old(world.s).image, Image, jobId, verdict, tracking);
                r == Returned(p.again) && world.s == Attempts.AfterProcess(old(world.s), Image, jobId, p)
    {
      hide Step, Attempts.ProcessJob, Attempts.AfterProcess, Attempts.Rendered;
      verdict, tracking := RaisedError, NotCounted;
      ghost var quiet, start := Uneventful(world.turns), world.s;
      Attempts.ReadsWriteNothing(start, Image);
      var found, b0 := world.GetJob(Image, jobId);
      if found.Raised? {
        return Raised(found.timedOut), verdict, tracking;
      }
      var job := found.value;
      if job == null || job.status.Done? {
        if quiet { Attempts.SkipsAddUp(start, Image, jobId, verdict, tracking); }
        return Returned(false), verdict, tracking;
      }
      var loaded, b1 := world.GetAsset(Image, job);
      if loaded.Raised? {
        return Raised(loaded.timedOut), verdict, tracking;
      }
      var image := loaded.value;
      if image == null {
        job.status := JobStatus.Failed;
        if quiet { Attempts.MissingAddsUp(start, Image, jobId, verdict, tracking); }
        var missing, b2 := world.CommitJob(Image, job);
        r := if missing.Raised? then Raised(missing.timedOut) else Returned(false);
        return r, verdict, tracking;
      }
      job.status := JobStatus.Running;
      image.status := AssetStatus.Running;
      if quiet { Attempts.StartsUp(start, Image, jobId); }
      var started, b3 := world.CommitRows(Image, job, image);
      if started.Raised? {
        return Raised(started.timedOut), verdict, tracking;
      }
      r, verdict, tracking := Render(job, image);
      if quiet { Attempts.AttemptAddsUp(start, Image, jobId, verdict, tracking); }
    }

    /** The entry in hand, to its ack. A retry is pushed after the status is committed and before the ack. */
    method Handle(raw: Raw) returns (r: Result<()>, ghost verdict: Verdict, ghost tracking: Tracking)
      requires world.Valid() && world.s.image.limit == maxRetries
      requires world.s.image.stage == if raw.Id? then Popped(raw.id) else Acking(raw)
      modifies world
      ensures Progress(world, Image)
      ensures r.Returned? ==>
                && world.s.image.stage.Idle? && EndsWith(world.trace, Work(Image, Protocol.WorkerStep.Ack))
                && Completed(world.origin, world.trace, Image) > Completed(world.origin, old(world.trace), Image)
      ensures Uneventful(old(world.turns)) ==>
                r.Returned? && world.s == Attempts.Handled(old(world.s), Image, raw, verdict, tracking)
    {
      hide Step, Exec, Uneventful, Completed, Attempts.ProcessJob, Attempts.AfterProcess;
      verdict, tracking := RaisedError, NotCounted;
      if raw.Id? {
        var requeue;
        requeue, verdict, tracking := Process(raw.id);
        if requeue.Raised? {
          return Raised(requeue.timedOut), verdict, tracking;
        }
        if requeue.value {
          var pushed, b1 := PushAgain(world, Image, raw.id);
          if pushed.Raised? {
            return pushed, verdict, tracking;
          }
        }
      }
      ghost var b2;
      CompletedGrows(world.origin, old(world.trace), world.trace, Image);
      r, b2 := WorkerCommon.Ack(world, Image, raw);
    }

    /** One turn of the loop: true if an entry was consumed, false if there was none. */
    method RunOnce() returns (r: Result<bool>, ghost verdict: Verdict, ghost tracking: Tracking)
      requires Ready()
      modifies world
      ensures Progress(world, Image) && Ready()
      ensures r == Returned(true) ==>
                && EndsWith(world.trace, Work(Image, Protocol.WorkerStep.Ack))
                && |world.s.image.log.popped| > |old(world.s).image.log.popped|
                && Completed(world.origin, world.trace, Image) > Completed(world.origin, old(world.trace), Image)
      ensures r.Raised? ==> EndsWith(world.trace, Work(Image, Escape))
      ensures Uneventful(old(world.turns)) ==>
                if old(world.s).image.queue == [] then r == Returned(false) && world.s == old(world.s)
                else r == Returned(true) && world.s == Attempts.Attempt(old(world.s), Image, verdict, tracking)
    {
      hide Step, Exec, Uneventful, Completed, Attempts.Handled, Attempts.Attempt;
      verdict, tracking := RaisedError, NotCounted;
      ghost var quiet, start := Uneventful(world.turns), world.s;
      var popped, b0 := ReliablePop(world, Image);
      if popped.Raised? {
        world.Escape(Image);
        return Raised(popped.timedOut), verdict, tracking;
      }
      if popped.value.None? {
        return Returned(false), verdict, tracking;
      }
      ghost var since := world.trace;
      var handled;
      handled, verdict, tracking := Handle(popped.value.value);
      if handled.Raised? {
        world.Escape(Image);
        return Raised(handled.timedOut), verdict, tracking;
      }
      if quiet { Attempts.HandledAddsUp(start, Image, verdict, tracking); }
      PopsKeptSince(world.origin, since, world.trace, Image);
      CompletedGrows(world.origin, old(world.trace), since, Image);
      return Returned(true), verdict, tracking;
    }

    /** One pass of maintenance: reap, then look for queued jobs that Redis lost. */
    method Maintain() returns (r: Result<()>, ghost p: Pass)
      requires Ready()
      modifies world
      ensures Progress(world, Image) && Ready()
      ensures r.Returned? ==> Maintained(world.origin, old(world.trace), p, world.trace, Image)
      ensures r.Raised? ==> EndsWith(world.trace, Work(Image, Escape))
      ensures Uneventful(old(world.turns)) ==>
                && r.Returned? && Enumerates(p.rows, Eligible(old(world.s).db, Image, {JobStatus.Queued}))
                && world.s == Reconciled(Reaped(old(world.s), Image), Image, p.rows)
    {
      hide Step, Exec, Mine, Reaped, Reconciled, Reaps;
      ghost var start := world.s;
      p := Pass(world.trace, 0, [], 0);
      var reaped := ReapStuck(world, Image);
      if reaped.Raised? {
        world.Escape(Image);
        return Raised(reaped.timedOut), p;
      }
      p := p.(cleared := world.trace, reaped := reaped.value);
      Recovery.ReapedMoves(start, Image, Garbage(""));
      var reconciled;
      ghost var rows;
      reconciled, rows := ReconcileOrphans(world, Image, Some({JobStatus.Queued}));
      if reconciled.Raised? {
        world.Escape(Image);
        return Raised(reconciled.timedOut), p;
      }
      return Returned(()), p.(rows := rows, pushed := reconciled.value);
    }

    /** The first two lines of `run`: reap, then reconcile in full. */
    method StartUp() returns (r: Result<nat>, ghost rows: seq<int>, ghost cleared: seq<Event>, ghost reaped: nat)
      requires Ready()
      modifies world
      ensures Progress(world, Image) && Ready()
      ensures old(world.trace) <= cleared <= world.trace && Exec(world.origin, cleared).image.stage.Idle?
      ensures r.Returned? ==>
                && Mine(Image, cleared) == Mine(Image, old(world.trace)) + Reaps(reaped)
                && Exec(world.origin, cleared).image.processing == []
                && Mine(Image, world.trace) == Mine(Image, cleared) + FullReconcile(rows, r.value)
      ensures Uneventful(old(world.turns)) ==>
                && r.Returned? && Enumerates(rows, Eligible(old(world.s).db, Image, UNFINISHED))
                && world.s == Reconciled(Reaped(old(world.s), Image), Image, rows)
    {
      hide Step, Exec, Mine, Reaped, Reconciled, Reaps;
      ghost var start := world.s;
      rows, cleared, reaped := [], world.trace, 0;
      var moved := ReapStuck(world, Image);
      if moved.Raised? {
        return moved, rows, cleared, reaped;
      }
      cleared, reaped := world.trace, moved.value;
      Recovery.ReapedMoves(start, Image, Garbage(""));
      r, rows := ReconcileOrphans(world, Image, None);
      if r.Raised? {
        world.Escape(Image);
      }
    }

    /** run: recover at startup, then loop; `due` says after which turns maintenance is due. An exception
        ends its turn and never the loop. Whoever else moves and whatever fails: the turns that finish an
        entry since startup are paid for by what was there and what arrived; every job that was issued at the
        start keeps its copy until it is closed; and so does every QUEUED job that was issued before a turn
        with maintenance. Left alone, the loop drains the queue. */
    method Run(due: seq<bool>)
      returns (started: bool, ghost rows: seq<int>, ghost since: seq<Event>, ghost finished: nat,
               ghost turns: seq<LoopTurn>)
      requires Ready()
      modifies world
      ensures Progress(world, Image) && Ready()
      ensures old(world.trace) <= since <= world.trace && finished <= |due|
      ensures started ==>
                |turns| == |due|
                && TurnsOk(world.origin, since, turns, world.trace, due, Uneventful(old(world.turns)), Image)
      ensures started && Inv(old(world.s)) ==>
                && PaidFor(world.origin, since, world.trace, Image, finished)
                && Delivered(world.origin, old(world.trace), world.trace, Image)
                && MaintenanceWorks(world.origin, turns, world.trace, Image)
      ensures Uneventful(old(world.turns)) ==>
                && Enumerates(rows, Eligible(old(world.s).db, Image, UNFINISHED))
                && var ready := Reconciled(Reaped(old(world.s), Image), Image, rows);
                   |due| >= Attempts.Measure(ready, Image) ==> Recovery.Drained(world.s, Image)
    {
      hide Step, Exec, Mine, Completed, Reaped, Reconciled, Attempts.Attempt, Attempts.Measure;
      hide Recovery.AllWaiting, Recovery.Drained, Inv, PaidFor, Delivered, Uneventful, FullReconcile, Reaps;
      hide TurnsOk, Maintained, MaintenanceWorks;
      ghost var quiet, start, cleared, reaped := Uneventful(world.turns), world.s, world.trace, 0;
      finished, turns := 0, [];
      var recovered;
      recovered, rows, cleared, reaped := StartUp();
      since := world.trace;
      if recovered.Raised? {
        return false, rows, since, finished, turns;
      }
      ghost var budget := Attempts.Measure(world.s, Image);
      if quiet { Recovery.StartupCovers(start, Image, rows); }
      NoTurns(world.origin, since, due, quiet, Image);
      for turn := 0 to |due|
        invariant Progress(world, Image) && Ready()
        invariant since <= world.trace && finished <= turn && |turns| == turn
        invariant TurnsOk(world.origin, since, turns, world.trace, due, quiet, Image)
        invariant Completed(world.origin, world.trace, Image) >= Completed(world.origin, since, Image) + finished
        invariant quiet ==> Recovery.Draining(world.s, Image, budget, turn)
      {
        ghost var was, past := world.s, world.trace;
        var r, verdict, tracking := RunOnce();
        CompletedGrows(world.origin, past, world.trace, Image);
        if r == Returned(true) { finished := finished + 1; }
        if quiet && was.image.queue != [] {
          Recovery.DrainingGoesOn(was, Image, budget, turn, verdict, tracking);
        }
        ghost var handled, pass := world.trace, None;
        if r.Returned? && due[turn] {
          ghost var before := world.s;
          var maintained, p := Maintain();
          CompletedGrows(world.origin, handled, world.trace, Image);
          if quiet { Recovery.MaintenanceIdle(before, Image, p.rows); }
          pass := if maintained.Returned? then Some(p) else None;
        }
        ghost var log := LoopTurn(handled, r.Returned?, pass, world.trace);
        OneMoreTurn(world.origin, since, turns, past, due, quiet, Image, log);
        turns := turns + [log];
      }
      if quiet && |due| >= budget { Recovery.DrainingEnds(world.s, Image, budget, |due|); }
      if Inv(old(world.s)) {
        RunConcludes(world.origin, old(world.trace), cleared, since, world.trace, Image, rows, recovered.value,
                     finished);
        TurnsMaintain(world.origin, old(world.trace), since, turns, world.trace, due, quiet, Image);
      }
      return true, rows, since, finished, turns;
    }
  }
}
