/** The audio worker (worker_tts.py): the same protocol, and a branch that fails fast. */
module WorkerTts {
  import opened Basics
  import opened Protocol
  import opened Worlds
  import opened WorkerCommon
  import Attempts
  import Recovery
  import opened Safety
  import opened Credits
  import opened AmidOthers
  import opened Maintenance

  class AudioWorker {
    const world: World
    const maxRetries: int

    constructor (world: World, maxRetries: int)
      ensures this.world == world && this.maxRetries == maxRetries
    {
      this.world, this.maxRetries := world, maxRetries;
    }

    /** The worker sits between two attempts. */
    ghost predicate Ready()
      reads this, world
    {
      world.Valid() && world.s.audio.stage.Idle? && world.s.audio.limit == maxRetries
    }

    /** The `try` of `process` and its commit: run the synthesizer, record what it did. */
    method Render(job: JobRow, audio: AssetRow)
      returns (r: Result<bool>, ghost verdict: Verdict, ghost tracking: Tracking)
      requires world.Valid() && world.s.audio.stage == Processing(job.id, job.ref) && world.s.audio.limit == maxRetries
      modifies world, job, audio
      ensures Progress(world, Audio)
      ensures r == Returned(true) ==> world.s.audio.stage == Requeueing(job.id)
      ensures r == Returned(false) ==> world.s.audio.stage == Acking(Id(job.id))
      ensures r.Returned? ==>
                var key := Key(Audio, job.ref);
                && job.id in world.s.db.jobs && key in world.s.db.assets
                && (verdict.Produced? ==>
                      && !r.value && world.s.db.jobs[job.id].status.Done?
                      && world.s.db.assets[key].status.Done? && world.s.db.assets[key].path == Some(verdict.path))
                && (!verdict.Produced? && r.value ==>
                      world.s.db.jobs[job.id].status.Queued? && world.s.db.assets[key].status.Pending?)
                && (!verdict.Produced? && !r.value ==>
                      world.s.db.jobs[job.id].status.Failed? && world.s.db.assets[key].status.Failed?)
      ensures Uneventful(old(world.turns)) ==>
                var end := Attempts.Rendered(old(world.s), Audio, verdict, tracking);
                end.audio.stage.Idle? || (r.Returned? && world.s == end && (r.value <==> end.audio.stage.Requeueing?))
    {
      hide Step;
      tracking := NotCounted;
      var requeue := false;
      var answer, b0 := world.RunProcessor(Audio);
      verdict := answer;
      if answer.Produced? {
        audio.path := Some(answer.path);
        audio.status := AssetStatus.Done;
        job.status := JobStatus.Done;
      } else if answer.RaisedUnsupportedLanguage? {
        // A configuration error: another attempt cannot succeed.
        job.status := JobStatus.Failed;
        audio.status := AssetStatus.Failed;
      } else {
        ghost var b1;
        requeue, tracking, b1 := HandleJobFailure(world, job, audio, Audio, maxRetries);
      }
      var settled, b2 := world.CommitRows(Audio, job, audio);
      r := if settled.Raised? then Raised(settled.timedOut) else Returned(requeue);
    }

    /** One job to completion; true if it should be pushed again. */
    method Process(jobId: int) returns (r: Result<bool>, ghost verdict: Verdict, ghost tracking: Tracking)
      requires world.Valid() && world.s.audio.stage == Popped(jobId) && world.s.audio.limit == maxRetries
      modifies world
      ensures Progress(world, Audio)
      ensures r == Returned(true) ==> world.s.audio.stage == Requeueing(jobId)
      ensures r == Returned(false) ==> world.s.audio.stage == Acking(Id(jobId))
      ensures Uneventful(old(world.turns)) ==>
                var p := Attempts.ProcessJob(old(world.s).db, old(world.s).audio, Audio, jobId, verdict, tracking);
                r == Returned(p.again) && world.s == Attempts.AfterProcess(old(world.s), Audio, jobId, p)
    {
      hide Step, Attempts.ProcessJob, Attempts.AfterProcess, Attempts.Rendered;
      verdict, tracking := RaisedError, NotCounted;
      ghost var quiet, start := Uneventful(world.turns), world.s;
      Attempts.ReadsWriteNothing(start, Audio);
      var found, b0 := world.GetJob(Audio, jobId);
      if found.Raised? {
        return Raised(found.timedOut), verdict, tracking;
      }
      var job := found.value;
      if job == null || job.status.Done? {
        if quiet { Attempts.SkipsAddUp(start, Audio, jobId, verdict, tracking); }
        return Returned(false), verdict, tracking;
      }
      var loaded, b1 := world.GetAsset(Audio, job);
      if loaded.Raised? {
        return Raised(loaded.timedOut), verdict, tracking;
      }
      var audio := loaded.value;
      if audio == null {
        job.status := JobStatus.Failed;
        if quiet { Attempts.MissingAddsUp(start, Audio, jobId, verdict, tracking); }
        var missing, b2 := world.CommitJob(Audio, job);
        r := if missing.Raised? then Raised(missing.timedOut) else Returned(false);
        return r, verdict, tracking;
      }
      job.status := JobStatus.Running;
      audio.status := AssetStatus.Running;
      if quiet { Attempts.StartsUp(start, Audio, jobId); }
      var started, b3 := world.CommitRows(Audio, job, audio);
      if started.Raised? {
        return Raised(started.timedOut), verdict, tracking;
      }
      r, verdict, tracking := Render(job, audio);
      if quiet { Attempts.AttemptAddsUp(start, Audio, jobId, verdict, tracking); }
    }

    /** The entry in hand, to its ack. A retry is pushed after the status is committed and before the ack. */
    method Handle(raw: Raw) returns (r: Result<()>, ghost verdict: Verdict, ghost tracking: Tracking)
      requires world.Valid() && world.s.audio.limit == maxRetries
      requires world.s.audio.stage == if raw.Id? then Popped(raw.id) else Acking(raw)
      modifies world
      ensures Progress(world, Audio)
      ensures r.Returned? ==>
                && world.s.audio.stage.Idle? && EndsWith(world.trace, Work(Audio, Protocol.WorkerStep.Ack))
                && Completed(world.origin, world.trace, Audio) > Completed(world.origin, old(world.trace), Audio)
      ensures Uneventful(old(world.turns)) ==>
                r.Returned? && world.s == Attempts.Handled(old(world.s), Audio, raw, verdict, tracking)
    {
      hide Step, Exec, Uneventful, Completed, Attempts.ProcessJob, Attempts.AfterProcess;
      verdict, tracking := RaisedError, NotCounted;
      if raw.Id? {
        var requeue;
        requeue, verdict, tracking := Process(raw.id);
        if requeue.Raised? {
          return Raised(requeue.timedOut), verdict, tracking;
        }
        if requeue.value {
          var pushed, b1 := PushAgain(world, Audio, raw.id);
          if pushed.Raised? {
            return pushed, verdict, tracking;
          }
        }
      }
      ghost var b2;
      CompletedGrows(world.origin, old(world.trace), world.trace, Audio);
      r, b2 := WorkerCommon.Ack(world, Audio, raw);
    }

    /** One turn of the loop: true if an entry was consumed, false if there was none. */
    method RunOnce() returns (r: Result<bool>, ghost verdict: Verdict, ghost tracking: Tracking)
      requires Ready()
      modifies world
      ensures Progress(world, Audio) && Ready()
      ensures r == Returned(true) ==>
                && EndsWith(world.trace, Work(Audio, Protocol.WorkerStep.Ack))
                && |world.s.audio.log.popped| > |old(world.s).audio.log.popped|
                && Completed(world.origin, world.trace, Audio) > Completed(world.origin, old(world.trace), Audio)
      ensures r.Raised? ==> EndsWith(world.trace, Work(Audio, Escape))
      ensures Uneventful(old(world.turns)) ==>
                if old(world.s).audio.queue == [] then r == Returned(false) && world.s == old(world.s)
                else r == Returned(true) && world.s == Attempts.Attempt(old(world.s), Audio, verdict, tracking)
    {
      hide Step, Exec, Uneventful, Completed, Attempts.Handled, Attempts.Attempt;
      verdict, tracking := RaisedError, NotCounted;
      ghost var quiet, start := Uneventful(world.turns), world.s;
      var popped, b0 := ReliablePop(world, Audio);
      if popped.Raised? {
        world.Escape(Audio);
        return Raised(popped.timedOut), verdict, tracking;
      }
      if popped.value.None? {
        return Returned(false), verdict, tracking;
      }
      ghost var since := world.trace;
      var handled;
      handled, verdict, tracking := Handle(popped.value.value);
      if handled.Raised? {
        world.Escape(Audio);
        return Raised(handled.timedOut), verdict, tracking;
      }
      if quiet { Attempts.HandledAddsUp(start, Audio, verdict, tracking); }
      PopsKeptSince(world.origin, since, world.trace, Audio);
      CompletedGrows(world.origin, old(world.trace), since, Audio);
      return Returned(true), verdict, tracking;
    }

    /** One pass of maintenance: reap, then look for queued jobs that Redis lost. */
    method Maintain() returns (r: Result<()>, ghost p: Pass)
      requires Ready()
      modifies world
      ensures Progress(world, Audio) && Ready()
      ensures r.Returned? ==> Maintained(world.origin, old(world.trace), p, world.trace, Audio)
      ensures r.Raised? ==> EndsWith(world.trace, Work(Audio, Escape))
      ensures Uneventful(old(world.turns)) ==>
                && r.Returned? && Enumerates(p.rows, Eligible(old(world.s).db, Audio, {JobStatus.Queued}))
                && world.s == Reconciled(Reaped(old(world.s), Audio), Audio, p.rows)
    {
      hide Step, Exec, Mine, Reaped, Reconciled, Reaps;
      ghost var start := world.s;
      p := Pass(world.trace, 0, [], 0);
      var reaped := ReapStuck(world, Audio);
      if reaped.Raised? {
        world.Escape(Audio);
        return Raised(reaped.timedOut), p;
      }
      p := p.(cleared := world.trace, reaped := reaped.value);
      Recovery.ReapedMoves(start, Audio, Garbage(""));
      var reconciled;
      ghost var rows;
      reconciled, rows := ReconcileOrphans(world, Audio, Some({JobStatus.Queued}));
      if reconciled.Raised? {
        world.Escape(Audio);
        return Raised(reconciled.timedOut), p;
      }
      return Returned(()), p.(rows := rows, pushed := reconciled.value);
    }

    /** The first two lines of `run`: reap, then reconcile in full. */
    method StartUp() returns (r: Result<nat>, ghost rows: seq<int>, ghost cleared: seq<Event>, ghost reaped: nat)
      requires Ready()
      modifies world
      ensures Progress(world, Audio) && Ready()
      ensures old(world.trace) <= cleared <= world.trace && Exec(world.origin, cleared).audio.stage.Idle?
      ensures r.Returned? ==>
                && Mine(Audio, cleared) == Mine(Audio, old(world.trace)) + Reaps(reaped)
                && Exec(world.origin, cleared).audio.processing == []
                && Mine(Audio, world.trace) == Mine(Audio, cleared) + FullReconcile(rows, r.value)
      ensures Uneventful(old(world.turns)) ==>
                && r.Returned? && Enumerates(rows, Eligible(old(world.s).db, Audio, UNFINISHED))
                && world.s == Reconciled(Reaped(old(world.s), Audio), Audio, rows)
    {
      hide Step, Exec, Mine, Reaped, Reconciled, Reaps;
      ghost var start := world.s;
      rows, cleared, reaped := [], world.trace, 0;
      var moved := ReapStuck(world, Audio);
      if moved.Raised? {
        return moved, rows, cleared, reaped;
      }
      cleared, reaped := world.trace, moved.value;
      Recovery.ReapedMoves(start, Audio, Garbage(""));
      r, rows := ReconcileOrphans(world, Audio, None);
      if r.Raised? {
        world.Escape(Audio);
      }
    }

    /** run: recover at startup, then loop; `due` says after which turns maintenance is due. An exception
        ends its turn and never the loop. Whoever else moves and whatever fails: the turns that finish an
        entry since startup are paid for by what was there and what arrived; every job that was issued at the
        start keeps its copy until it is closed; and so does every QUEUED job that was issued before a turn
        with maintenance. Left alone, the loop drains the queue. */
    method Run(due: seq<bool>)
      returns (started: bool, ghost rows: seq<int>, ghost since: seq<Event>, ghost finished: nat,
               ghost turns: seq<LoopTurn>)
      requires Ready()
      modifies world
      ensures Progress(world, Audio) && Ready()
      ensures old(world.trace) <= since <= world.trace && finished <= |due|
      ensures started ==>
                |turns| == |due|
                && TurnsOk(world.origin, since, turns, world.trace, due, Uneventful(old(world.turns)), Audio)
      ensures started && Inv(old(world.s)) ==>
                && PaidFor(world.origin, since, world.trace, Audio, finished)
                && Delivered(world.origin, old(world.trace), world.trace, Audio)
                && MaintenanceWorks(world.origin, turns, world.trace, Audio)
      ensures Uneventful(old(world.turns)) ==>
                && Enumerates(rows, Eligible(old(world.s).db, Audio, UNFINISHED))
                && var ready := Reconciled(Reaped(old(world.s), Audio), Audio, rows);
                   |due| >= Attempts.Measure(ready, Audio) ==> Recovery.Drained(world.s, Audio)
    {
      hide Step, Exec, Mine, Completed, Reaped, Reconciled, Attempts.Attempt, Attempts.Measure;
      hide Recovery.AllWaiting, Recovery.Drained, Inv, PaidFor, Delivered, Uneventful, FullReconcile, Reaps;
      hide TurnsOk, Maintained, MaintenanceWorks;
      ghost var quiet, start, cleared, reaped := Uneventful(world.turns), world.s, world.trace, 0;
      finished, turns := 0, [];
      var recovered;
      recovered, rows, cleared, reaped := StartUp();
      since := world.trace;
      if recovered.Raised? {
        return false, rows, since, finished, turns;
      }
      ghost var budget := Attempts.Measure(world.s, Audio);
      if quiet { Recovery.StartupCovers(start, Audio, rows); }
      NoTurns(world.origin, since, due, quiet, Audio);
      for turn := 0 to |due|
        invariant Progress(world, Audio) && Ready()
        invariant since <= world.trace && finished <= turn && |turns| == turn
        invariant TurnsOk(world.origin, since, turns, world.trace, due, quiet, Audio)
        invariant Completed(world.origin, world.trace, Audio) >= Completed(world.origin, since, Audio) + finished
        invariant quiet ==> Recovery.Draining(world.s, Audio, budget, turn)
      {
        ghost var was, past := world.s, world.trace;
        var r, verdict, tracking := RunOnce();
        CompletedGrows(world.origin, past, world.trace, Audio);
        if r == Returned(true) { finished := finished + 1; }
        if quiet && was.audio.queue != [] {
          Recovery.DrainingGoesOn(was, Audio, budget, turn, verdict, tracking);
        }
        ghost var handled, pass := world.trace, None;
        if r.Returned? && due[turn] {
          ghost var before := world.s;
          var maintained, p := Maintain();
          CompletedGrows(world.origin, handled, world.trace, Audio);
          if quiet { Recovery.MaintenanceIdle(before, Audio, p.rows); }
          pass := if maintained.Returned? then Some(p) else None;
        }
        ghost var log := LoopTurn(handled, r.Returned?, pass, world.trace);
        OneMoreTurn(world.origin, since, turns, past, due, quiet, Audio, log);
        turns := turns + [log];
      }
      if quiet && |due| >= budget { Recovery.DrainingEnds(world.s, Audio, budget, |due|); }
      if Inv(old(world.s)) {
        RunConcludes(world.origin, old(world.trace), cleared, since, world.trace, Audio, rows, recovered.value,
                     finished);
        TurnsMaintain(world.origin, old(world.trace), since, turns, world.trace, due, quiet, Audio);
      }
      return true, rows, since, finished, turns;
    }
  }
}
