/** The world a process runs in: the database, Redis, and whoever else is at work. Every command
    first lets the others move, then takes effect, and may fail before or after it did. The moves and
    the faults come from `turns`, which is arbitrary, so a method proved here is proved for every
    interleaving; `trace` records that all of it is a run of the step relation. */
module Worlds {
  import opened Basics
  import opened Protocol
  import A = Attempts

  datatype Result<+T> = Returned(value: T) | Raised(timedOut: bool)

  datatype Fault = NoFault | Fails(applied: bool, timedOut: bool)

  /** What happens around one command: the others' moves, the command's own fate, and the answers of
      the processor and of the retry counter should it ask for them. */
  datatype Turn = Turn(others: seq<Event>, fault: Fault, verdict: Verdict, tracking: Tracking)

  const UNEVENTFUL := Turn([], NoFault, RaisedError, Counted)

  /** Whose move it is: a lane's worker never moves behind its own back. */
  datatype Actor = Worker(t: JobType) | Api

  predicate MovesFor(actor: Actor, e: Event) {
    actor.Api? || !e.Work? || e.t != actor.t
  }

  predicate Elsewhere(actor: Actor, moves: seq<Event>) {
    forall e | e in moves :: MovesFor(actor, e)
  }

  predicate Uneventful(turns: seq<Turn>) {
    forall turn | turn in turns :: turn.others == [] && turn.fault.NoFault?
  }

  lemma ElsewhereKeepsWorker(s: System, moves: seq<Event>, t: JobType)
    requires Elsewhere(Worker(t), moves)
    ensures Exec(s, moves).LaneOf(t).stage == s.LaneOf(t).stage
    ensures Exec(s, moves).LaneOf(t).limit == s.LaneOf(t).limit
  {
    if moves != [] {
      var prefix := moves[..|moves| - 1];
      assert moves[|moves| - 1] in moves;
      assert forall e | e in prefix :: e in moves;
      ElsewhereKeepsWorker(s, prefix, t);
      hide WorkStep;
    }
  }

  /** The steps of one lane's worker in a run: what it did, whatever happened in between. */
  function Mine(t: JobType, es: seq<Event>): seq<WorkerStep> {
    if es == [] then []
    else
      var last := es[|es| - 1];
      Mine(t, es[..|es| - 1]) + if last.Work? && last.t == t then [last.w] else []
  }

  lemma {:induction false} MineAppend(t: JobType, a: seq<Event>, b: seq<Event>)
    ensures Mine(t, a + b) == Mine(t, a) + Mine(t, b)
    decreases |b|
  {
    if b == [] {
      assert a + b == a;
    } else {
      var front := b[..|b| - 1];
      assert (a + b)[..|a + b| - 1] == a + front;
      MineAppend(t, a, front);
    }
  }

  lemma {:induction false} NotMine(t: JobType, moves: seq<Event>)
    requires Elsewhere(Worker(t), moves)
    ensures Mine(t, moves) == []
  {
    if moves != [] {
      assert moves[|moves| - 1] in moves;
      assert forall e | e in moves[..|moves| - 1] :: e in moves;
      NotMine(t, moves[..|moves| - 1]);
    }
  }

  lemma OneOfMine(t: JobType, trace: seq<Event>, moves: seq<Event>, w: WorkerStep)
    requires Elsewhere(Worker(t), moves)
    ensures Mine(t, trace + moves) == Mine(t, trace)
    ensures Mine(t, trace + moves + [Work(t, w)]) == Mine(t, trace) + [w]
  {
    MineAppend(t, trace, moves);
    NotMine(t, moves);
    MineAppend(t, trace + moves, [Work(t, w)]);
    assert [Work(t, w)][..0] == [];
  }

  /** The history of pops only grows. */
  lemma {:induction false} PopsAreKept(s: System, es: seq<Event>, t: JobType)
    ensures s.LaneOf(t).log.popped <= Exec(s, es).LaneOf(t).log.popped
  {
    if es != [] {
      PopsAreKept(s, es[..|es| - 1], t);
      StepKeepsPops(Exec(s, es[..|es| - 1]), es[|es| - 1], t);
    }
  }

  lemma WorkKeepsPops(db: Db, lane: Lane, t: JobType, w: WorkerStep)
    ensures lane.log.popped <= WorkStep(db, lane, t, w).lane.log.popped
  {
    hide WriteRows, Enumerates, Eligible, Missing, RemoveFirst, IdsIn;
  }

  lemma StepKeepsPops(s: System, e: Event, t: JobType)
    ensures s.LaneOf(t).log.popped <= Step(s, e).LaneOf(t).log.popped
  {
    if e.Work? { WorkKeepsPops(s.db, s.LaneOf(e.t), e.t, e.w); }
    hide WorkStep;
  }

  lemma PopsKeptSince(origin: System, was: seq<Event>, now: seq<Event>, t: JobType)
    requires was <= now
    ensures Exec(origin, was).LaneOf(t).log.popped <= Exec(origin, now).LaneOf(t).log.popped
  {
    assert now == was + now[|was|..];
    ExecAppend(origin, was, now[|was|..]);
    PopsAreKept(Exec(origin, was), now[|was|..], t);
  }

  /** The ORM objects of one session: what was loaded, then assigned to, then committed. */
  class JobRow {
    const id: int
    const ref: int
    var status: JobStatus

    constructor (id: int, ref: int, status: JobStatus)
      ensures this.id == id && this.ref == ref && this.status == status
    {
      this.id, this.ref, this.status := id, ref, status;
    }
  }

  class AssetRow {
    var status: AssetStatus
    var path: Option<string>

    constructor (status: AssetStatus, path: Option<string>)
      ensures this.status == status && this.path == path
    {
      this.status, this.path := status, path;
    }
  }

  /** The rows say what the commit that is due at this stage writes. */
  predicate Due(stage: Stage, job: JobRow, asset: AssetRow)
    reads job, asset
  {
    match stage
    case GotAsset(id, ref, _, _) =>
      job.id == id && job.ref == ref && job.status.Running? && asset.status.Running?
    case Resolved(id, ref, Finished(path)) =>
      job.id == id && job.ref == ref && job.status.Done? && asset.status.Done? && asset.path == Some(path)
    case Resolved(id, ref, TryAgain) =>
      job.id == id && job.ref == ref && job.status.Queued? && asset.status.Pending?
    case Resolved(id, ref, GiveUp) =>
      job.id == id && job.ref == ref && job.status.Failed? && asset.status.Failed?
    case _ => false
  }

  /** Where a commit that went through leaves the worker. */
  function AfterCommit(stage: Stage): Stage {
    match stage
    case GotAsset(id, ref, _, _) => Processing(id, ref)
    case Resolved(id, _, TryAgain) => Requeueing(id)
    case Resolved(id, _, _) => Acking(Id(id))
    case _ => Idle
  }

  /** The step that a commit takes at this stage. */
  function CommitAt(stage: Stage): WorkerStep {
    if stage.GotAsset? then CommitRunning else CommitOutcome
  }

  function AfterQuery(todo: seq<int>): Stage {
    if todo == [] then Idle else Pushing(todo)
  }

  /** The members of a set as a sequence; which one comes first is anybody's choice. */
  method InAnyOrder(ids: set<int>) returns (rows: seq<int>)
    ensures Enumerates(rows, ids)
  {
    rows := [];
    var rest := ids;
    while rest != {}
      invariant Distinct(rows) && rest <= ids
      invariant forall id | id in rows :: id in ids && id !in rest
      invariant forall id | id in ids :: id in rows || id in rest
      decreases |rest|
    {
      ghost var some := Pick(rest);
      assert some in rest;
      var id :| id in rest;
      rows, rest := rows + [id], rest - {id};
    }
  }

  lemma ReapStaysIdle(s: System, t: JobType)
    requires s.LaneOf(t).stage.Idle?
    ensures Step(s, Work(t, ReapOne)).LaneOf(t).stage.Idle?
  {
  }

  lemma PopHolds(s: System, t: JobType)
    requires s.LaneOf(t).stage.Idle? && s.LaneOf(t).queue != []
    ensures var raw := s.LaneOf(t).queue[0];
            Step(s, Work(t, Pop)).LaneOf(t).stage == (if raw.Id? then Popped(raw.id) else Acking(raw))
    ensures Step(s, Work(t, Pop)).LaneOf(t).log.popped == s.LaneOf(t).log.popped + [s.LaneOf(t).queue[0]]
  {
  }

  lemma AnswerHolds(s: System, t: JobType, verdict: Verdict)
    requires s.LaneOf(t).stage.Processing?
    ensures var at, s' := s.LaneOf(t).stage, Step(s, Work(t, Protocol.WorkerStep.Process(verdict)));
            && s'.LaneOf(t).limit == s.LaneOf(t).limit
            && s'.LaneOf(t).stage ==
                 if verdict.Produced? then Resolved(at.id, at.ref, Finished(verdict.path))
                 else if A.FailsFast(t, verdict) then Resolved(at.id, at.ref, GiveUp)
                 else Booking(at.id, at.ref)
  {
  }

  lemma CommitHolds(s: System, t: JobType)
    requires s.LaneOf(t).stage.GotAsset? || s.LaneOf(t).stage.Resolved?
    ensures var at, s' := s.LaneOf(t).stage, Step(s, Work(t, CommitAt(s.LaneOf(t).stage)));
            s'.LaneOf(t).stage.Idle? || s'.LaneOf(t).stage == AfterCommit(at)
  {
  }

  /** The database after a commit of these two rows: they are stored as they are, and nothing else changed. */
  predicate Stored(before: Db, after: Db, id: int, key: Key, js: JobStatus, status: AssetStatus, path: Option<string>) {
    && id in before.jobs && key in before.assets
    && after.jobs.Keys == before.jobs.Keys && after.assets.Keys == before.assets.Keys && after.poems == before.poems
    && after.jobs[id] == Job(before.jobs[id].kind, before.jobs[id].ref, js)
    && after.assets[key] == Asset(before.assets[key].poem, status, path)
    && (forall other | other in before.jobs && other != id :: after.jobs[other] == before.jobs[other])
    && forall other | other in before.assets && other != key :: after.assets[other] == before.assets[other]
  }

  /** What a commit with a job and its asset leaves, if it went through. A commit without changes leaves all. */
  lemma CommitStores(s: System, t: JobType)
    requires s.LaneOf(t).stage.GotAsset? || s.LaneOf(t).stage.Resolved?
    ensures var at, s' := s.LaneOf(t).stage, Step(s, Work(t, CommitAt(s.LaneOf(t).stage)));
            var key := Key(t, at.ref);
            var path := if key in s.db.assets then s.db.assets[key].path else None;
            !s'.LaneOf(t).stage.Idle? ==>
              match at
              case GotAsset(id, _, _, _) =>
                if id in s.db.jobs && key in s.db.assets then
                  Stored(s.db, s'.db, id, key, JobStatus.Running, AssetStatus.Running, path)
                else s'.db == s.db && at.status.Running? && at.assetStatus.Running?
              case Resolved(id, _, Finished(p)) =>
                Stored(s.db, s'.db, id, key, JobStatus.Done, AssetStatus.Done, Some(p))
              case Resolved(id, _, TryAgain) =>
                Stored(s.db, s'.db, id, key, JobStatus.Queued, AssetStatus.Pending, path)
              case Resolved(id, _, GiveUp) =>
                Stored(s.db, s'.db, id, key, JobStatus.Failed, AssetStatus.Failed, path)
  {
  }

  lemma ReadJobHolds(s: System, t: JobType)
    requires s.LaneOf(t).stage.Popped?
    ensures var id := s.LaneOf(t).stage.id;
            Step(s, Work(t, ReadJob)).LaneOf(t).stage ==
              if id !in s.db.jobs || s.db.jobs[id].status.Done? then Acking(Id(id))
              else GotJob(id, s.db.jobs[id].ref, s.db.jobs[id].status)
  {
  }

  lemma ReadAssetHolds(s: System, t: JobType)
    requires s.LaneOf(t).stage.GotJob?
    ensures var at := s.LaneOf(t).stage;
            Step(s, Work(t, ReadAsset)).LaneOf(t).stage ==
              if Key(t, at.ref) !in s.db.assets then NoAsset(at.id)
              else GotAsset(at.id, at.ref, at.status, s.db.assets[Key(t, at.ref)].status)
  {
  }

  lemma MissingHolds(s: System, t: JobType)
    requires s.LaneOf(t).stage.NoAsset?
    ensures var s' := Step(s, Work(t, CommitOutcome));
            s'.LaneOf(t).stage.Idle?
            || (s'.LaneOf(t).stage == Acking(Id(s.LaneOf(t).stage.id))
                && var id := s.LaneOf(t).stage.id;
                   && id in s.db.jobs
                   && s'.db == s.db.(jobs := s.db.jobs[id := s.db.jobs[id].(status := JobStatus.Failed)]))
  {
  }

  lemma QueryHolds(s: System, t: JobType, rows: seq<int>)
    requires s.LaneOf(t).stage.ScannedAll?
    requires Enumerates(rows, Eligible(s.db, t, s.LaneOf(t).stage.statuses))
    ensures var s' := Step(s, Work(t, QueryJobs(rows)));
            && s'.LaneOf(t).limit == s.LaneOf(t).limit
            && s'.LaneOf(t).stage == AfterQuery(Missing(rows, s.LaneOf(t).stage.seen))
  {
  }

  lemma LostReplyStaysIdle(s: System, t: JobType)
    ensures Step(s, Work(t, PopReplyLost)).LaneOf(t).stage == s.LaneOf(t).stage
    ensures Step(s, Work(t, PopReplyLost)).LaneOf(t).limit == s.LaneOf(t).limit
  {
  }

  class World {
    var s: System
    var turns: seq<Turn>
    ghost const origin: System
    ghost var trace: seq<Event>

    ghost predicate Valid()
      reads this
    {
      s == Exec(origin, trace)
    }

    constructor (start: System, turns: seq<Turn>)
      ensures Valid() && s == start && origin == start && trace == [] && this.turns == turns
    {
      s, this.turns := start, turns;
      origin, trace := start, [];
    }

    ghost method Record(e: Event)
      requires Valid()
      modifies this`trace
      ensures trace == old(trace) + [e] && Step(s, e) == Exec(origin, trace)
    {
      assert (trace + [e])[..|trace|] == trace;
      trace := trace + [e];
    }

    /** The others move. */
    method Await(actor: Actor) returns (turn: Turn, ghost moves: seq<Event>)
      requires Valid()
      modifies this
      ensures Valid() && Elsewhere(actor, moves)
      ensures s == Exec(old(s), moves) && trace == old(trace) + moves
      ensures |turns| < |old(turns)| || (old(turns) == turns == [] && moves == [])
      ensures Uneventful(old(turns)) ==> Uneventful(turns) && moves == [] && turn.fault.NoFault?
    {
      hide Step;
      turn, moves := UNEVENTFUL, [];
      if turns == [] {
        return;
      }
      turn := turns[0];
      assert turn in turns;
      assert forall later | later in turns[1..] :: later in turns;
      turns := turns[1..];
      for i := 0 to |turn.others|
        invariant Valid() && Elsewhere(actor, moves)
        invariant s == Exec(old(s), moves) && trace == old(trace) + moves
        invariant turns == old(turns)[1..]
        invariant turn.others == [] ==> moves == []
      {
        var e := turn.others[i];
        if MovesFor(actor, e) {
          Record(e);
          assert (moves + [e])[..|moves|] == moves;
          s, moves := Step(s, e), moves + [e];
        }
      }
    }

    /** One command of the lane's worker. It may fail with or without having taken effect. */
    method Command(t: JobType, w: WorkerStep) returns (r: Result<Turn>, before: System, ghost moves: seq<Event>)
      requires Valid()
      modifies this
      ensures Valid() && old(trace) <= trace && Elsewhere(Worker(t), moves)
      ensures before == Exec(old(s), moves)
      ensures before.LaneOf(t).stage == old(s.LaneOf(t).stage) && before.LaneOf(t).limit == old(s.LaneOf(t).limit)
      ensures r.Returned? ==> s == Step(before, Work(t, w)) && trace == old(trace) + moves + [Work(t, w)]
      ensures r.Returned? ==> Mine(t, trace) == Mine(t, old(trace)) + [w]
      ensures r.Raised? ==> s == before || s == Step(before, Work(t, w))
      ensures |turns| < |old(turns)| || (old(turns) == turns == [] && r.Returned? && before == old(s))
      ensures Uneventful(old(turns)) ==> Uneventful(turns) && r.Returned? && before == old(s)
    {
      var turn;
      turn, moves := Await(Worker(t));
      ElsewhereKeepsWorker(old(s), moves, t);
      OneOfMine(t, old(trace), moves, w);
      before := s;
      if turn.fault.NoFault? || turn.fault.applied {
        Record(Work(t, w));
        s := Step(s, Work(t, w));
      }
      r := if turn.fault.NoFault? then Returned(turn) else Raised(turn.fault.timedOut);
    }

    /** An exception leaves the worker's loop body, or the process dies. */
    method Escape(t: JobType)
      requires Valid()
      modifies this`s, this`trace
      ensures Valid() && s == Step(old(s), Work(t, Protocol.WorkerStep.Escape))
      ensures s.LaneOf(t).stage.Idle? && s.LaneOf(t).limit == old(s.LaneOf(t).limit)
      ensures trace == old(trace) + [Work(t, Protocol.WorkerStep.Escape)]
    {
      Record(Work(t, Protocol.WorkerStep.Escape));
      s := Step(s, Work(t, Protocol.WorkerStep.Escape));
    }

    /** A read by an API request: everybody else moves, then it sees the system as it is. */
    method Look() returns (r: Result<System>)
      requires Valid()
      modifies this
      ensures Valid() && old(trace) <= trace
      ensures r.Returned? ==> r.value == s
      ensures Uneventful(old(turns)) ==> Uneventful(turns) && r.Returned? && s == old(s)
    {
      var turn, moves := Await(Api);
      r := if turn.fault.Fails? then Raised(turn.fault.timedOut) else Returned(s);
    }

    /** One command of an API request: a database transaction or a push. */
    method Request(o: OutsideStep) returns (r: Result<()>, before: System, ghost moves: seq<Event>)
      requires Valid()
      modifies this
      ensures Valid() && old(trace) <= trace
      ensures before == Exec(old(s), moves)
      ensures r.Returned? ==> s == Step(before, Outside(o)) && trace == old(trace) + moves + [Outside(o)]
      ensures r.Raised? ==> s == before || s == Step(before, Outside(o))
      ensures Uneventful(old(turns)) ==> Uneventful(turns) && r.Returned? && before == old(s)
    {
      hide Step;
      var turn;
      turn, moves := Await(Api);
      before := s;
      if turn.fault.NoFault? || turn.fault.applied {
        Record(Outside(o));
        s := Step(s, Outside(o));
      }
      r := if turn.fault.NoFault? then Returned(()) else Raised(turn.fault.timedOut);
    }

    // -------------------------------------------------------------- what a worker asks of Redis

    /** BLMOVE queue processing LEFT RIGHT. When it fails after the move, the id is parked but unseen. */
    method Blmove(t: JobType) returns (r: Result<Option<Raw>>, ghost before: System)
      requires Valid() && s.LaneOf(t).stage.Idle?
      modifies this
      ensures Progress(this, t)
      ensures before.LaneOf(t).stage.Idle? && (r.Raised? ==> s.LaneOf(t).stage.Idle?)
      ensures r.Returned? && r.value.Some? ==>
                s.LaneOf(t).stage == (if r.value.value.Id? then Popped(r.value.value.id) else Acking(r.value.value))
      ensures r.Returned? && r.value.Some? ==>
                before.LaneOf(t).queue != [] && r.value.value == before.LaneOf(t).queue[0]
                && s == Step(before, Work(t, Pop))
      ensures r.Returned? && r.value.Some? ==> |s.LaneOf(t).log.popped| > |old(s.LaneOf(t)).log.popped|
      ensures r == Returned(None) ==> s == before && before.LaneOf(t).queue == []
      ensures r.Raised? ==> s == before || s == Step(before, Work(t, PopReplyLost))
      ensures Uneventful(old(turns)) ==> r.Returned? && before == old(s)
    {
      hide WorkStep;
      var turn, moves := Await(Worker(t));
      ElsewhereKeepsWorker(old(s), moves, t);
      before := s;
      LostReplyStaysIdle(s, t);
      PopsAreKept(old(s), moves, t);
      StepKeepsLimit(s, Work(t, Pop), t);
      if turn.fault.Fails? {
        if turn.fault.applied {
          Record(Work(t, PopReplyLost));
          s := Step(s, Work(t, PopReplyLost));
        }
        r := Raised(turn.fault.timedOut);
      } else if s.LaneOf(t).queue == [] {
        r := Returned(None);
      } else {
        r := Returned(Some(s.LaneOf(t).queue[0]));
        PopHolds(s, t);
        Record(Work(t, Pop));
        s := Step(s, Work(t, Pop));
      }
    }

    /** INCR then EXPIRE on the job's retry counter: the attempt count, or None on a Redis error. */
    method CountAttempt(t: JobType, job: JobRow)
      returns (attempts: Option<nat>, ghost tracking: Tracking, ghost before: System)
      requires Valid() && s.LaneOf(t).stage == Booking(job.id, job.ref)
      modifies this
      ensures Progress(this, t)
      ensures before.LaneOf(t).stage == old(s.LaneOf(t).stage) && s == Step(before, Work(t, Track(tracking)))
      ensures attempts.Some? <==> tracking.Counted?
      ensures attempts.Some? ==> attempts.value == Count(before.LaneOf(t).counters, job.id) + 1
      ensures Uneventful(old(turns)) ==> before == old(s)
    {
      var turn, moves := Await(Worker(t));
      ElsewhereKeepsWorker(old(s), moves, t);
      before, tracking := s, turn.tracking;
      Record(Work(t, Track(turn.tracking)));
      s := Step(s, Work(t, Track(turn.tracking)));
      attempts := if turn.tracking.Counted? then Some(s.LaneOf(t).counters[job.id]) else None;
    }

    /** LMOVE processing queue LEFT LEFT. */
    method Lmove(t: JobType) returns (r: Result<Option<Raw>>, ghost before: System, ghost moves: seq<Event>)
      requires Valid() && s.LaneOf(t).stage.Idle?
      modifies this
      ensures Progress(this, t) && s.LaneOf(t).stage.Idle?
      ensures Elsewhere(Worker(t), moves) && before == Exec(old(s), moves) && before.LaneOf(t).stage.Idle?
      ensures moves == [] ==> before == old(s)
      ensures r.Returned? && r.value.Some? ==>
                && before.LaneOf(t).processing != []
                && s == Step(before, Work(t, ReapOne))
                && trace == old(trace) + moves + [Work(t, ReapOne)]
                && Mine(t, trace) == Mine(t, old(trace)) + [ReapOne]
      ensures r == Returned(None) ==>
                && s == before && before.LaneOf(t).processing == [] && trace == old(trace) + moves
                && Mine(t, trace) == Mine(t, old(trace))
      ensures |turns| < |old(turns)| || (old(turns) == turns == [] && moves == [])
      ensures Uneventful(old(turns)) ==> r.Returned? && moves == []
    {
      hide WorkStep;
      var turn;
      turn, moves := Await(Worker(t));
      ElsewhereKeepsWorker(old(s), moves, t);
      before := s;
      ReapStaysIdle(s, t);
      OneOfMine(t, old(trace), moves, ReapOne);
      StepKeepsLimit(s, Work(t, ReapOne), t);
      if turn.fault.NoFault? && s.LaneOf(t).processing == [] {
        return Returned(None), before, moves;
      }
      r := if turn.fault.Fails? then Raised(turn.fault.timedOut) else Returned(Some(s.LaneOf(t).processing[0]));
      if turn.fault.NoFault? || turn.fault.applied {
        Record(Work(t, ReapOne));
        s := Step(s, Work(t, ReapOne));
      }
    }

    /** LRANGE queue 0 -1, the first read of a reconcile. */
    method LrangeQueue(t: JobType, wanted: set<JobStatus>) returns (r: Result<seq<Raw>>, ghost before: System)
      requires Valid() && s.LaneOf(t).stage.Idle?
      modifies this
      ensures Progress(this, t)
      ensures r.Returned? ==>
                && r.value == before.LaneOf(t).queue && s == Step(before, Work(t, ScanQueue(wanted)))
                && s.LaneOf(t).stage == ScannedQueue(wanted, IdsIn(r.value))
                && Mine(t, trace) == Mine(t, old(trace)) + [ScanQueue(wanted)]
      ensures Uneventful(old(turns)) ==> r.Returned? && before == old(s)
    {
      var c, was, moves := Command(t, ScanQueue(wanted));
      before := was;
      r := if c.Raised? then Raised(c.timedOut) else Returned(was.LaneOf(t).queue);
    }

    /** LRANGE processing 0 -1, the second one. */
    method LrangeProcessing(t: JobType) returns (r: Result<seq<Raw>>, ghost before: System)
      requires Valid() && s.LaneOf(t).stage.ScannedQueue?
      modifies this
      ensures Progress(this, t)
      ensures before.LaneOf(t).stage == old(s.LaneOf(t).stage)
      ensures r.Returned? ==>
                && r.value == before.LaneOf(t).processing && s == Step(before, Work(t, ScanProcessing))
                && s.LaneOf(t).stage == ScannedAll(old(s.LaneOf(t).stage.statuses),
                                                   old(s.LaneOf(t).stage.seen) + IdsIn(r.value))
                && Mine(t, trace) == Mine(t, old(trace)) + [ScanProcessing]
      ensures Uneventful(old(turns)) ==> r.Returned? && before == old(s)
    {
      var c, was, moves := Command(t, ScanProcessing);
      before := was;
      r := if c.Raised? then Raised(c.timedOut) else Returned(was.LaneOf(t).processing);
    }

    /** The SELECT of a reconcile: every eligible row once, in any order. */
    method SelectJobs(t: JobType) returns (r: Result<seq<int>>, ghost before: System)
      requires Valid() && s.LaneOf(t).stage.ScannedAll?
      modifies this
      ensures Progress(this, t)
      ensures before.LaneOf(t).stage == old(s.LaneOf(t).stage)
      ensures r.Returned? ==>
                && Enumerates(r.value, Eligible(before.db, t, old(s.LaneOf(t).stage.statuses)))
                && s == Step(before, Work(t, QueryJobs(r.value)))
                && s.LaneOf(t).stage == AfterQuery(Missing(r.value, old(s.LaneOf(t).stage.seen)))
                && Mine(t, trace) == Mine(t, old(trace)) + [QueryJobs(r.value)]
      ensures Uneventful(old(turns)) ==> r.Returned? && before == old(s)
    {
      hide WorkStep, Step, Enumerates, Eligible, Missing, AfterQuery;
      var turn, moves := Await(Worker(t));
      ElsewhereKeepsWorker(old(s), moves, t);
      before := s;
      var rows := InAnyOrder(Eligible(s.db, t, s.LaneOf(t).stage.statuses));
      QueryHolds(s, t, rows);
      OneOfMine(t, old(trace), moves, QueryJobs(rows));
      if turn.fault.NoFault? || turn.fault.applied {
        Record(Work(t, QueryJobs(rows)));
        s := Step(s, Work(t, QueryJobs(rows)));
      }
      r := if turn.fault.Fails? then Raised(turn.fault.timedOut) else Returned(rows);
    }

    /** RPUSH queue id for the next missing id. */
    method RpushOrphan(t: JobType, id: int) returns (r: Result<()>, ghost before: System)
      requires Valid() && s.LaneOf(t).stage.Pushing? && s.LaneOf(t).stage.todo != [] && s.LaneOf(t).stage.todo[0] == id
      modifies this
      ensures Progress(this, t)
      ensures before.LaneOf(t).stage == old(s.LaneOf(t).stage)
      ensures r.Returned? ==>
                && s == Step(before, Work(t, PushOrphan))
                && s.LaneOf(t).stage == AfterQuery(old(s.LaneOf(t).stage.todo[1..]))
                && Mine(t, trace) == Mine(t, old(trace)) + [PushOrphan]
      ensures Uneventful(old(turns)) ==> r.Returned? && before == old(s)
    {
      var c, was, moves := Command(t, PushOrphan);
      before := was;
      r := if c.Raised? then Raised(c.timedOut) else Returned(());
    }

    // -------------------------------------------------------------- what a session asks of the database

    method GetJob(t: JobType, id: int) returns (r: Result<JobRow?>, ghost before: System)
      requires Valid() && s.LaneOf(t).stage == Popped(id)
      modifies this
      ensures Progress(this, t)
      ensures before.LaneOf(t).stage == Popped(id)
      ensures r.Returned? ==>
                && s == Step(before, Work(t, ReadJob))
                && (r.value == null <==> id !in before.db.jobs)
                && (r.value != null ==>
                      fresh(r.value) && r.value.id == id && r.value.ref == before.db.jobs[id].ref
                      && r.value.status == before.db.jobs[id].status)
                && s.LaneOf(t).stage == (if r.value == null || r.value.status.Done? then Acking(Id(id))
                                         else GotJob(id, r.value.ref, r.value.status))
      ensures Uneventful(old(turns)) ==> r.Returned? && before == old(s)
    {
      hide WorkStep, Step, Exec, Mine;
      var c, was, moves := Command(t, ReadJob);
      before := was;
      ReadJobHolds(was, t);
      StepKeepsLimit(was, Work(t, ReadJob), t);
      if c.Raised? {
        r := Raised(c.timedOut);
      } else if id in was.db.jobs {
        var row := new JobRow(id, was.db.jobs[id].ref, was.db.jobs[id].status);
        r := Returned(row);
      } else {
        r := Returned(null);
      }
    }

    method GetAsset(t: JobType, job: JobRow) returns (r: Result<AssetRow?>, ghost before: System)
      requires Valid() && s.LaneOf(t).stage == GotJob(job.id, job.ref, job.status)
      modifies this
      ensures Progress(this, t)
      ensures before.LaneOf(t).stage == GotJob(job.id, job.ref, job.status)
      ensures r.Returned? ==>
                && s == Step(before, Work(t, ReadAsset))
                && (r.value == null <==> Key(t, job.ref) !in before.db.assets)
                && (r.value != null ==> fresh(r.value) && r.value.path == before.db.assets[Key(t, job.ref)].path)
                && s.LaneOf(t).stage == (if r.value == null then NoAsset(job.id)
                                         else GotAsset(job.id, job.ref, job.status, r.value.status))
      ensures Uneventful(old(turns)) ==> r.Returned? && before == old(s)
    {
      hide WorkStep, Step, Exec, Mine;
      var c, was, moves := Command(t, ReadAsset);
      before := was;
      ReadAssetHolds(was, t);
      StepKeepsLimit(was, Work(t, ReadAsset), t);
      if c.Raised? {
        r := Raised(c.timedOut);
      } else if Key(t, job.ref) in was.db.assets {
        var row := new AssetRow(was.db.assets[Key(t, job.ref)].status, was.db.assets[Key(t, job.ref)].path);
        r := Returned(row);
      } else {
        r := Returned(null);
      }
    }

    /** session.commit() with a job and its asset. It raises when the command fails, and when an UPDATE
        finds its row gone. */
    method CommitRows(t: JobType, job: JobRow, asset: AssetRow) returns (r: Result<()>, ghost before: System)
      requires Valid() && Due(s.LaneOf(t).stage, job, asset)
      modifies this
      ensures Progress(this, t)
      ensures before.LaneOf(t).stage == old(s.LaneOf(t).stage)
      ensures r.Returned? ==>
                && s == Step(before, Work(t, CommitAt(old(s.LaneOf(t).stage))))
                && s.LaneOf(t).stage == AfterCommit(old(s.LaneOf(t).stage))
      ensures r.Returned? ==>
                var key := Key(t, job.ref);
                if job.id in before.db.jobs && key in before.db.assets then
                  Stored(before.db, s.db, job.id, key, job.status, asset.status,
                         if asset.status.Done? then asset.path else before.db.assets[key].path)
                else s.db == before.db && job.status.Running?
      ensures Uneventful(old(turns)) ==>
                && before == old(s)
                && (r.Returned? <==> !Step(before, Work(t, CommitAt(old(s.LaneOf(t).stage)))).LaneOf(t).stage.Idle?)
    {
      hide WorkStep, Exec, Mine, Stored;
      var c, was, moves := Command(t, CommitAt(s.LaneOf(t).stage));
      before := was;
      CommitHolds(was, t);
      CommitStores(was, t);
      StepKeepsLimit(was, Work(t, CommitAt(was.LaneOf(t).stage)), t);
      r := if c.Raised? then Raised(c.timedOut)
           else if s.LaneOf(t).stage.Idle? then Raised(false)
           else Returned(());
    }

    /** session.commit() with a job whose asset was not found. */
    method CommitJob(t: JobType, job: JobRow) returns (r: Result<()>, ghost before: System)
      requires Valid() && s.LaneOf(t).stage == NoAsset(job.id) && job.status.Failed?
      modifies this
      ensures Progress(this, t)
      ensures before.LaneOf(t).stage == old(s.LaneOf(t).stage)
      ensures r.Returned? ==> s == Step(before, Work(t, CommitOutcome)) && s.LaneOf(t).stage == Acking(Id(job.id))
      ensures r.Returned? ==>
                && job.id in before.db.jobs && s.db.assets == before.db.assets && s.db.poems == before.db.poems
                && s.db.jobs == before.db.jobs[job.id := before.db.jobs[job.id].(status := job.status)]
      ensures Uneventful(old(turns)) ==>
                && before == old(s)
                && (r.Returned? <==> !Step(before, Work(t, CommitOutcome)).LaneOf(t).stage.Idle?)
    {
      hide WorkStep, Exec, Mine;
      var c, was, moves := Command(t, CommitOutcome);
      before := was;
      MissingHolds(was, t);
      StepKeepsLimit(was, Work(t, CommitOutcome), t);
      r := if c.Raised? then Raised(c.timedOut)
           else if s.LaneOf(t).stage.Idle? then Raised(false)
           else Returned(());
    }

    /** The injected processor or synthesizer runs, and does whatever it likes. */
    method RunProcessor(t: JobType) returns (verdict: Verdict, ghost before: System)
      requires Valid() && s.LaneOf(t).stage.Processing?
      modifies this
      ensures Progress(this, t)
      ensures before.LaneOf(t).stage == old(s.LaneOf(t).stage)
      ensures s == Step(before, Work(t, Protocol.WorkerStep.Process(verdict)))
      ensures var at := old(s.LaneOf(t).stage);
              s.LaneOf(t).stage ==
                if verdict.Produced? then Resolved(at.id, at.ref, Finished(verdict.path))
                else if A.FailsFast(t, verdict) then Resolved(at.id, at.ref, GiveUp)
                else Booking(at.id, at.ref)
      ensures Uneventful(old(turns)) ==> before == old(s)
    {
      var turn, moves := Await(Worker(t));
      ElsewhereKeepsWorker(old(s), moves, t);
      hide WorkStep;
      before, verdict := s, turn.verdict;
      AnswerHolds(s, t, verdict);
      Record(Work(t, Protocol.WorkerStep.Process(verdict)));
      s := Step(s, Work(t, Protocol.WorkerStep.Process(verdict)));
    }
  }

  /** The world moved on along a run of the step relation; uneventful turns stay uneventful. */
  twostate predicate Progress(w: World, t: JobType)
    reads w
  {
    && w.Valid() && old(w.trace) <= w.trace
    && w.s.LaneOf(t).limit == old(w.s.LaneOf(t).limit)
    && |w.turns| <= |old(w.turns)|
    && (Uneventful(old(w.turns)) ==> Uneventful(w.turns))
  }
}
